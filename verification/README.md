# Verification of allino's job engine

allino is a Go framework whose functions can be called directly, queued, cached, deduplicated,
broadcast over a stream or bound to a session that holds node resources. This project models the
stateful parts behind those promises and proves what they keep:

- **Job store** (`JobTable`, `JobColumns`, `JobCounts`, `SqlStore`): the `executions` table with its
  statements and triggers. Each SQL statement is a function from table to table; the class `Store` runs it row by
  row with the triggers firing, and is proved to have exactly that effect and exact counters.
- **Job protocols** (`JobProtocol`, `Acquisition`, `Draining`, `StaleLease`): any number of callers,
  workers, heartbeats and reapers interleave, one statement a step.
- **Calls of handlers** (`JobId`, `Versions`, `CallJob`, `CallAdmission`, `CallModes`, `CacheTransparency`,
  `CacheVersions`, `JobRoots`): `call_job` and the worker's decode-run-encode as processes over the job
  store, at any mix of handler versions: who gets to run a handler, what each job mode leaves behind,
  and what callers are told.
  `CacheExample` is a site that meets all that their theorems ask for.
- **Radix trie** (`RadixTree`, `RadixShape`, `RadixMatch` on values; `RadixTrie` in memory, with nodes
  rewritten in place) and the **revoker** that rotates a list of tries (`RevocationHistory`,
  `RevokeEffect`, `Revoker`).
- **Timing wheel** (`Countdown`, `TimeWheel`, with `Modular` for the arithmetic): slots and rounds
  against a plain list of countdowns.
- **Stream replay** (`StreamReplay`), **session resources** (`Sessions`), **futures** (`Futures`),
  **interval locks** (`IntervalLock`) and **route order** (`RouteOrder`). `Text` holds the splitting of
  strings that ids, versions and paths share.

Times are integers (nanoseconds in the revoker, ids of stream messages as naturals). What the Go code
reads from clocks, from the database or from callers is a parameter: the time `now`, the order of a
map iteration, the moment another goroutine runs. SQL `NULL` is `None`, and comparisons with it are
false.

## Where the code does less than it says

The models follow the code. Where it falls short of its documentation, its comments or its evident
purpose, the exact condition is proved:

- `README.md:392` says a memoized call waits for the one under way. With a persistent cache it never
  does: the results table only ever holds finished results, so whoever loses the race is told of a
  backend error until the winner has stored its result (`NeverWaits`, `LosersAnswer`).
- `README.md:385-386` says results are kept under name, version and hash of the input. The version is not
  part of the id (`typedhandler_job_utils.go:108-124`), and storing a second result does not replace
  the version of the first (`typedhandler_job_sql.go:740-744`). So a result has the version of whoever
  stored first and the outcome of whoever stored last: a caller is answered with a result of another
  major or minor version exactly when the first is of the caller's own and the last, if it decodes, is not
  (`ForeignAnswer`, `UpgradeMixesVersions`, `AnUpgrade`), and a caller of another version than the first
  never hits again (`NeverHitsAgain`). No caller can tell beforehand: the stored row shows the version of
  the first only, and that of the run that the outcome is from is kept nowhere.
- A handler that returns an error and marks itself for a requeue is reported as a success to a direct
  caller, because the error variable is overwritten (`typedhandler_job.go:357-376`); every other error is
  reported (`ErrorIsReported`, `RequeueHidesError`, `AHiddenError`).
- The conflict branch of `Enqueue` keeps the lease and the retry count of the finished row it takes
  over (`typedhandler_job_sql.go:257-269`), so a caller may start with a lease that is over already
  (`AcquiredLease`) and lose the job at once to a worker (`TakeoverIsReaped`): exclusivity is lost exactly
  when a reaper's statement meets the row of a live holder (`StepKeepsExclusive`). The same takeover,
  between the first two statements of a `Reaping`, is all that breaks the invariant behind the bound on
  requeues (`StepKeepsBounded`), and can break the bound itself (`TakeoverIsReaped`).
- Ids made from a handler's name or a request id with a `:` in it cannot be decoded again
  (`RoundTrip`). A job started from inside a worker has such a request id: the id of the worker's job.
  Two handlers can get one id in this way exactly when one's name goes on behind the other's with a `:`
  and the very hash of the other's job (`CollisionCondition`).
- Revoking `*` is meant for everyone and revokes nobody, because the trie refuses the empty prefix and
  the refusal is dropped (`RevokingAllRevokesNobody`). A prefix that is revoked again while its first
  entry is in the newest bucket keeps its first time (`SecondRequestIsLost`, `RequestTakesEffect`). An
  exact revocation with an earlier time replaces a later one (`ExactEffect`), and exact revocations
  are never rotated out (`RotationForgets`), contrary to the TTL of `README.md:463`.
- The comment on `MatchAll` says a callback returns false to stop (`internal/trie/trie.go:51`); the
  code stops on true, and so does `MatchAll` here.
- A repeating timer is put back as a new object, so canceling the handle that `Add` returned stops the
  first occurrence only (`Repeat`).
- The end of a session gives back what it took exactly when the clamp at zero does not fire, that is when
  the other sessions together use no less than nothing of whatever it used (`ReleaseConserves`,
  `CoveredByOthers`). With non-negative requests it never fires (`ReleaseKeepsBalance`); nothing keeps a
  request from being negative (`NegativeUseBreaksBalance`).
- A handler that creates sessions is to be locked while its request does not fit. Its lock is only looked
  at when one of its own sessions starts or ends, and is then right unless it was stale before (`OwnStart`,
  `OwnEnd`); what the
  sessions of other handlers take or free makes it stale under exact conditions (`OthersStart`,
  `OthersEnd`, `LocksGoStale`). No lock outlives the sessions of its handler (`CreateSession`,
  `MayDeleteSession`, `Collect`).
- A replay whose last id is no longer in the stream, or not behind its start, can hand over messages
  that the consumer group delivers again (`HandoverCondition`).

## Model

| member | source | states |
|---|---|---|
| `SqlStore.Store.InsertRow` | typedhandler_job_sql.go:159-173 | an inserted row leaves every counter equal to the number of rows it stands for |
| `SqlStore.Store.UpdateRow` | typedhandler_job_sql.go:175-195 | so does an updated one, whether or not status or root changed |
| `SqlStore.Store.DeleteRow` | typedhandler_job_sql.go:197-203 | so does a deleted one |
| `SqlStore.Store.UpdateRows` | typedhandler_job_sql.go:175-195 | a bulk UPDATE whose triggers fire row by row, in any order, ends with all rows replaced and exact counters |
| `SqlStore.Store.DeleteRows` | typedhandler_job_sql.go:197-203 | the same for a bulk DELETE |
| `JobCounts.InsertKeepsCounts` | typedhandler_job_sql.go:159-173 | the trigger's change to the counters matches the one row more, for every root and status, `*` included |
| `JobCounts.UpdateKeepsCounts` | typedhandler_job_sql.go:175-195 | the guarded trigger keeps every counter exact for any change of a row |
| `JobCounts.DeleteKeepsCounts` | typedhandler_job_sql.go:197-203 | the trigger's change matches the one row less, and no counter it touches is missing |
| `JobCounts.TotalIsExact` | typedhandler_job_sql.go:162-171 | the `*` counter of a status is never below the number of its rows, and equal to it if and only if none of them has the root `*` |
| `JobCounts.TotalsAddUp` | typedhandler_job_sql.go:162-171 | the four `*` counters add up to the size of the table if and only if no row has the root `*` |
| `JobCounts.FiredAgrees` | typedhandler_job_sql.go:159-203 | whatever a statement does to the rows, and in whatever order the triggers fire, the counters agree with the rows afterwards |
| `JobRoots.CountersAreExact` | typedhandler_job_context.go:20-27 | in every run of calls and workers the triggers leave each counter at the number of its rows; roots are job ids, so those under `*` add up to the size of the table |
| `SqlStore.Store.Enqueue` | typedhandler_job_sql.go:229-287 | inserts, takes over a done row whose TTL is over, or changes nothing; returns true exactly in the first two cases |
| `SqlStore.Store.SelectNext` | typedhandler_job_sql.go:332-338 | finds the eligible row that precedes all others, or that there is none |
| `SqlStore.Store.Dequeue` | typedhandler_job_sql.go:289-407 | leases the eligible row of highest priority, the oldest of these, with the lowest id of those, and hands out its columns and the id gap; finds nothing only when no row is eligible, and then changes nothing |
| `SqlStore.Store.FailExpired` | typedhandler_job_sql.go:416-425 | the bulk statement fails exactly the rows whose lease is over and whose retries are used up |
| `SqlStore.Store.RequeueExpired` | typedhandler_job_sql.go:427-436 | requeues exactly the rows whose lease is over, counting a retry |
| `SqlStore.Store.DeleteExpired` | typedhandler_job_sql.go:438-442 | deletes exactly the finished rows whose TTL is over |
| `SqlStore.Store.Reaping` | typedhandler_job_sql.go:409-446 | the three statements in order; afterwards no lease and no TTL is over |
| `JobTable.ReapingLeavesNoExpired` | typedhandler_job_sql.go:409-446 | after a full Reaping no row has a lease, and no finished row a TTL, before its time |
| `JobColumns.FailExpiredColumns` | typedhandler_job_sql.go:416-425 | a leased row with its lease over and retry count at the maximum or above becomes an error with its message; no other column and no other row changes |
| `JobColumns.RequeueExpiredColumns` | typedhandler_job_sql.go:427-436 | a leased row with its lease over is queued without lease and with one retry more; nothing else changes |
| `JobColumns.DeleteExpiredColumns` | typedhandler_job_sql.go:438-442 | exactly the done and failed rows with a TTL before now are gone |
| `JobColumns.ReapedOnce` | typedhandler_job_sql.go:409-446 | after one Reaping an expired leased row is an error if its retries are used up, and queued with one retry more otherwise |
| `JobColumns.EnqueueColumns` | typedhandler_job_sql.go:251-271 | every column of a new row; of a row that is taken over, which columns are new and which keep their value; any other row is left as it is |
| `JobColumns.LeaseColumns` | typedhandler_job_sql.go:328-341 | leasing sets status, lease and update time, and nothing else |
| `JobColumns.LeaseUpdateColumns` | typedhandler_job_sql.go:456-463 | a heartbeat sets lease and update time, and nothing else |
| `JobColumns.MarkDoneColumns` | typedhandler_job_sql.go:492-507 | output and error go into the row only together with a TTL |
| `JobColumns.RequeueColumns` | typedhandler_job_sql.go:837-846 | requeueing sets status, time to run, lease, update time and retry count, and nothing else |
| `JobColumns.FreeColumns` | typedhandler_job_sql.go:545-548 | the row goes and no other |
| `JobColumns.StoreResultColumns` | typedhandler_job_sql.go:735-747 | a second result replaces outcome, status and update time only |
| `JobColumns.HitColumns` | typedhandler_job_sql.go:644-695 | what a lookup finds, in the results or in the rows, and that anything unfinished is pending |
| `SqlStore.Store.LeaseUpdate` | typedhandler_job_sql.go:448-465 | moves the lease of the row with the key, whatever its status, and of no other |
| `SqlStore.Store.DoneAsync` | typedhandler_job_sql.go:467-534 | marks the row and, without a TTL, stores the result; with a TTL the result is in the row instead |
| `SqlStore.Store.DonePersistent` | typedhandler_job_sql.go:697-750 | stores the result and leaves the row of the job as it is, leased |
| `SqlStore.Store.Free` | typedhandler_job_sql.go:536-551 | deletes the row with the key |
| `SqlStore.Store.Requeue` | typedhandler_job_sql.go:827-848 | puts the row back in the queue without a lease and counts a retry |
| `SqlStore.Store.Total` | typedhandler_job_sql.go:850-892 | reports for each status the number of rows it stands for |
| `JobTable.ExecuteKeepsConsistent` | typedhandler_job_sql.go:119-138 | no statement makes two rows share an id or reuses one |
| `JobTable.IdAfter` | typedhandler_job_sql.go:119-138 | a row keeps its id for life; only Enqueue makes a row, under a fresh id |
| `JobTable.NextIsUnique` | typedhandler_job_sql.go:332-338 | the order of Dequeue has no ties |
| `JobTable.NextColumns` | typedhandler_job_sql.go:332-338 | the row that is next, column by column: eligible, and ahead of every other eligible row by priority, then age, then id |
| `JobTable.NextExists` | typedhandler_job_sql.go:332-338 | some row is next as soon as one is eligible |
| `Draining.DrainsInOrder` | typedhandler_job_sql.go:289-407 | dequeuing again and again at one time returns each eligible row once, higher priorities first, then older ones, then lower ids, and then finds nothing; all other rows stay as they were |
| `Draining.DrainsEligible` | typedhandler_job_sql.go:289-407 | what comes out is exactly what was eligible |
| `Draining.DrainsSorted` | typedhandler_job_sql.go:335-337 | what comes out earlier precedes what comes out later |
| `JobProtocol.SingleExecutor` | typedhandler_job_sql.go:229-465 | in every interleaving of callers, workers, stray heartbeats and reapers, no job has two live holders as long as no reaper's statement meets the row of one, overdue or not |
| `JobProtocol.CurrentLeasesSuffice` | typedhandler_job_sql.go:229-465 | that is so while no live holder's lease runs out |
| `JobProtocol.StepKeepsExclusive` | typedhandler_job_sql.go:229-465 | a step keeps every live holder's row leased and its own if and only if it is not a reaper's statement that takes one away |
| `JobProtocol.Admitted` | typedhandler_job_sql.go:251-338 | whoever is let in by Enqueue or Dequeue finds the row not leased and leaves it leased |
| `JobProtocol.StaysLeased` | typedhandler_job_sql.go:409-551 | a leased row stays leased under a statement that does not finish its job if and only if no statement of Reaping selects it |
| `JobProtocol.AcquiredLease` | typedhandler_job_sql.go:251-271 | a caller's lease is over from the start if and only if the row taken over carried one that was |
| `JobProtocol.HeartBeatProtects` | typedhandler_job_sql.go:448-465 | after a heartbeat no reaper under way takes the row, nor any that begins before the new lease is over |
| `JobProtocol.HolderEnds` | typedhandler_job_sql.go:467-551 | what each way of ending a job leaves of its row, and that its agent holds it no more |
| `JobProtocol.ReapingIsBounded` | typedhandler_job_sql.go:409-446 | without such a takeover the statements of Reaping, all three of them, take a row from leased to queued at most max(1, max_retry) times in its life, and never more often than its retry count says |
| `JobProtocol.StepKeepsBounded` | typedhandler_job_sql.go:409-446 | a step keeps the invariant behind that bound (no row past the first statement of a reaper has its retries used up and its lease over) if and only if it is not a takeover that makes such a row; the bound itself may survive one |
| `JobProtocol.RetryNeverDecreases` | typedhandler_job_sql.go:427-436 | no statement lowers a row's retry count; requeueing raises it by one |
| `JobProtocol.NoNewlyOver` | typedhandler_job_sql.go:229-465 | no statement but a takeover makes a lease be over at an earlier time |
| `StaleLease.TakeoverIsReaped` | typedhandler_job_sql.go:251-271 | a run of sixteen steps that ends with two live holders and with one requeue above the bound |
| `Acquisition.AcquisitionIsExclusive` | typedhandler_job_sql.go:251-287 | with no assumption on clocks or callers: two Enqueues that return true for a key have between them the removal of the row, or a done mark whose TTL was over at the second |
| `Acquisition.AcquiredAtMostOnce` | typedhandler_job.go:272-315 | without TTL and Free at most one caller ever enters a once or memoized handler for a key |
| `Acquisition.RemovedBy` | typedhandler_job_sql.go:438-442 | a row goes only by Free, or by Reaping when its TTL is over |
| `Acquisition.DoneIsExplained` | typedhandler_job_sql.go:467-534 | a done row carries the TTL of a done mark since it was acquired |
| `CallAdmission.RunsForOneCaller` | typedhandler_job.go:272-315 | of all calls of a once or memoized handler with one input, in any run, at most one ever runs it, as long as nobody from outside frees its row or gives it a TTL |
| `CallAdmission.OneAtATime` | typedhandler_job.go:272-355 | of all calls of a dedupe handler with one input at most one is between being let in and freeing its row, as long as no worker and nobody from outside ends its job |
| `CallAdmission.AdmittedExactly` | typedhandler_job.go:272-315 | a call is let in if and only if its id has no row, or a done one whose TTL is over; otherwise it is told of a duplicate, or looks into the cache again |
| `CallAdmission.SecondIsShut` | typedhandler_job.go:272-315 | after one call of a once or memoized job was let in no other one is |
| `CallModes.LooksUp` | typedhandler_job.go:236-244 | modes without a cache do not look for a result, and a lookup leaves no trace |
| `CallModes.Queues` | typedhandler_job.go:246-270 | a call from another handler in async or dispatch mode leaves a queued row of its own, if there was none, and is told that it is pending |
| `CallModes.Locks` | typedhandler_job.go:272-315 | a call in dedupe, once or memoized mode leaves a leased row of its own, if there was none, and is then in |
| `CallModes.RunsAtOnce` | typedhandler_job.go:330 | every other call runs its handler at once and leaves the store alone |
| `CallModes.Finishes` | typedhandler_job.go:330-355 | what a run leaves: its outcome among the results with a cache and no abort, its row freed in dedupe mode, nothing otherwise |
| `CallModes.Reenqueues` | typedhandler_job.go:357-376 | a handler that asked for it is enqueued again, queued or leased by its mode, and no other is |
| `CallModes.Takes` | typedhandler_job_sql.go:322-406 | a worker gets the row that is next, leased, with its columns |
| `CallModes.WorkerLeaves` | typedhandler_job_manager.go:160-205 | what a worker leaves of a job: done with its outcome stored, queued again after its delay, or deleted, by mode and abort mark |
| `CallModes.Nests` | typedhandler_job.go:232-233 | a call made by a handler makes its id the root of its caller's later rows |
| `CallModes.Crashes` | typedhandler_job_manager.go:160-205 | a worker that is lost leaves rows and results as they are |
| `CallModes.Waits` | typedhandler_job_sql.go:599-642 | a call that waits goes on as long as no finished result is there |
| `CallModes.QueuedNeverRunsHere` | typedhandler_job.go:246-270 | in every run a call that is to be queued never runs its handler where it was made |
| `CallModes.FreeForTheNext` | typedhandler_job.go:350-355 | when the winner of a dedupe job is done the next caller with the same input gets in |
| `CallModes.LaterCalls` | typedhandler_job.go:236-244 | in every run a call that finds a stored success is told of a duplicate in once mode, and given the output in the other modes with a cache |
| `CallModes.WorkerAnswersLaterCalls` | typedhandler_job_manager.go:177-198 | the job that a worker has done is the last stored under its id |
| `CallModes.NoStaleAnswer` | typedhandler_job.go:148-184 | what is over its TTL or of another major or minor version is no answer |
| `CallModes.RequestsApart` | typedhandler_job_context.go:60-72 | without cache and dedupe, calls of different requests have different ids |
| `CallModes.RequestsShared` | typedhandler_job_context.go:60-72 | with cache or dedupe, calls with one input have one id |
| `Versions.DifferExactly` | typedhandler_job_utils.go:250-279 | two versions of the usual form differ if and only if their major or their minor numbers do, whatever comes behind |
| `Versions.UnreadableNeverDiffers` | typedhandler_job_utils.go:250-279 | a version without a dot, or with no number before or behind the first one, differs from none |
| `Versions.AtoiReads` | typedhandler_job_utils.go:269-276 | numbers written in decimal, with or without a sign, are read back |
| `JobId.RoundTrip` | typedhandler_job_utils.go:108-144 | an id decodes to its parts if and only if neither the name nor the rest holds a separator, and is otherwise refused, never misread |
| `JobId.DecodeExactly` | typedhandler_job_utils.go:126-144 | what is accepted as an id is exactly what has its four parts, the first two as they should be, and it decodes to the other three |
| `JobId.Injective` | typedhandler_job_utils.go:101-124 | equal ids have equal handler, marker and hash, unless one name swallows the id of the other or, whatever the names, if no marker holds a separator; and equal input, unless the hash collides on the two |
| `JobId.CollisionCondition` | typedhandler_job_utils.go:101-124 | jobs of two names of different length can get one id, by some request ids, if and only if the longer name goes on behind the shorter with its hash |
| `JobId.SameName` | typedhandler_job_utils.go:101-124 | within one name, or names of one length, ids are equal if and only if name, marker and hash are |
| `JobId.NamesCollide` | typedhandler_job_utils.go:101-124 | the request id that makes two such ids equal |
| `CacheTransparency.Transparent` | typedhandler_job.go:210-379 | in every interleaving of calls and workers at any mix of versions each successful answer is the handler's output for the caller's input, of its own run or of one stored under its id, except for an error with a requeue mark |
| `CacheVersions.TransparentAtOneVersion` | typedhandler_job.go:210-379 | with one version deployed it is the output at that version |
| `CacheTransparency.ErrorIsReported` | typedhandler_job.go:330-378 | who runs the handler is told of its error if and only if there is one and it has no requeue mark |
| `CacheTransparency.RunKeepsInv` | typedhandler_job.go:210-449 | in every run each row's key is the id of its own handler and input, and each stored result is what the handler returns for its input at the version that ran |
| `CacheTransparency.StepKeepsInv` | typedhandler_job.go:210-449 | every step of a call or a worker, and every other statement, keeps that |
| `CacheTransparency.HitAnswers` | typedhandler_job.go:142-207 | whether a lookup yields anything depends on the version of the first result stored under the id, and what it yields on the run of the last |
| `CacheTransparency.KeepKeepsHistory` | typedhandler_job_sql.go:735-747 | the table of results is always what all that was ever stored adds up to |
| `JobTable.FirstVersionLastOutcome` | typedhandler_job_sql.go:735-747 | any sequence of results stored under one key leaves the version of the first and the outcome of the last |
| `CacheTransparency.StoredFor` | typedhandler_job_utils.go:101-124 | a stored result is found only under the id of its own handler and input |
| `CacheTransparency.NeverWaits` | typedhandler_job.go:289-312 | no call of a persistent cache ever gets to wait |
| `CacheTransparency.LosersAnswer` | typedhandler_job.go:289-312 | who is refused the lock gets a backend error before the winner stores its result, and after that the last stored outcome, be it output, error or duplicate, if it fits its version and can be decoded |
| `CacheTransparency.FirstLookup` | typedhandler_job.go:236-244 | a call is answered at once exactly when a lookup yields something |
| `CacheVersions.ForeignAnswer` | typedhandler_job.go:148-184 | a lookup is answered with a result of another major or minor version if and only if the first stored one fits the caller, the last does not, and its outcome can be decoded |
| `CacheVersions.NeverHitsAgain` | typedhandler_job.go:148-184 | once the first result under an id is of another major or minor version, a caller never hits again, whatever it stores |
| `CacheVersions.UpgradeMixesVersions` | typedhandler_job_sql.go:735-747 | a run of three calls whose last is given the output of another version |
| `CacheExample.AnUpgrade` | typedhandler_job_sql.go:735-747 | that run on a given site: a caller at 1.0 is answered with what 2.0 returned |
| `CacheVersions.RequeueHidesError` | typedhandler_job.go:357-378 | a run in which a handler's error is answered as success |
| `CacheExample.AHiddenError` | typedhandler_job.go:357-378 | that run on a given site |
| `CacheExample.SoundIsMet` | typedhandler_job_utils.go:101-106 | for any two strings there is a site that meets the assumptions on codecs and hash and may hash both |
| `RadixTree.InsertRefinesMap` | internal/trie/trie.go:122-191 | insertion is refused exactly for a bound key and otherwise adds exactly that binding; sibling heads stay distinct and every inner node earned |
| `RadixTree.SplitShare` | internal/trie/trie.go:146-178 | splitting a node adds exactly the new key to what it holds |
| `RadixTree.LookupIn` | internal/trie/trie.go:193-213 | a key can only live below the one child with its first character |
| `RadixTree.CommonLength` | internal/trie/trie.go:193-205 | the longest common prefix: common, and not extendable |
| `RadixShape.CanonicalShape` | internal/trie/trie.go:122-191 | nodes sit exactly at the longest common prefixes of pairs of keys |
| `RadixShape.SameKeysSameShape` | internal/trie/trie.go:122-191 | tries with the same keys have the same nodes, in whatever order they were built |
| `RadixShape.NodeBound` | internal/trie/trie.go:122-191 | at most two nodes for every key |
| `RadixMatch.MatchesIsScan` | internal/trie/trie.go:52-86 | walking down the trie finds what looking up every prefix of the string finds, in the same order |
| `RadixMatch.MatchAllMeaning` | internal/trie/trie.go:52-86 | the callbacks are made on exactly the stored prefixes, shortest first, up to and including the first that returns true |
| `RadixMatch.FirstMatchIsShortest` | internal/trie/trie.go:88-120 | the first value met is stored under the shortest stored prefix, and none is met only if there is none |
| `RadixMatch.BuildKeepsFirst` | internal/trie/trie.go:38-47 | after any sequence of insertions a trie holds the first value given for each nonempty key, and nothing else |
| `RadixTrie.LongestCommonPrefix` | internal/trie/trie.go:193-205 | the loop finds the longest common prefix |
| `RadixTrie.TrieNode.Insert` | internal/trie/trie.go:122-191 | inserting in place, through any number of levels, refines insertion on values; a refusal changes nothing |
| `RadixTrie.TrieNode.SplitNode` | internal/trie/trie.go:146-178 | rewriting a node in place refines the split on values |
| `RadixTrie.TrieNode.FindPrefix` | internal/trie/trie.go:69-79 | finds the child that a walk goes on with |
| `RadixTrie.Trie.Insert` | internal/trie/trie.go:38-47 | the two errors exactly for an empty and for a bound key, with nothing changed; otherwise exactly one binding more |
| `RadixTrie.Trie.MatchAll` | internal/trie/trie.go:52-86 | the loop over heap nodes makes exactly the callbacks of the walk, and returns true iff the last of them did |
| `RadixTrie.Trie.ShortestMatch` | internal/trie/trie.go:88-120 | returns the binding of the shortest stored prefix, or nothing iff no stored key is a prefix |
| `RevocationHistory.ExactFromHistory` | ext/revoker/revoker.go:157-164 | the map of exact revocations holds the latest event of each scope |
| `RevocationHistory.CoversWhatIsOlder` | ext/revoker/revoker.go:157-190 | what was issued at a whole second is covered if and only if it was not issued after the revocation |
| `RevocationHistory.BucketFromHistory` | ext/revoker/revoker.go:111-171 | a bucket holds exactly the first event of each nonempty prefix since the rotation that began it |
| `RevokeEffect.RequestTakesEffect` | ext/revoker/revoker.go:139-171 | those a request is meant for are revoked afterwards if and only if they were before, or it is exact, or its prefix is not refused |
| `RevokeEffect.RequestIsContained` | ext/revoker/revoker.go:139-171 | a request changes nothing for anyone else |
| `RevokeEffect.PrefixEffect` | ext/revoker/revoker.go:166-171 | what a prefix revocation adds, for every subject and time of issue |
| `RevokeEffect.ExactEffect` | ext/revoker/revoker.go:157-164 | an exact revocation replaces the earlier one of its scope and touches no other |
| `RevokeEffect.RotationForgets` | ext/revoker/revoker.go:111-132 | a rotation forgets exactly the oldest bucket, and no exact revocation |
| `RevokeEffect.RevokingAllRevokesNobody` | ext/revoker/revoker.go:139-155 | a request for `*` changes nobody's verdict, whatever went before |
| `RevokeEffect.SecondRequestIsLost` | ext/revoker/revoker.go:166-171 | a second, later request for a prefix has no effect in the same bucket |
| `Revoker.WalkVerdict` | ext/revoker/revoker.go:192-206 | the early-stopping walk of a bucket finds its shortest prefix that covers the time of issue, or that none does |
| `Revoker.Revoker.Rotate` | ext/revoker/revoker.go:111-132 | the kept buckets stay those of the history |
| `Revoker.Revoker.Insert` | ext/revoker/revoker.go:157-164 | so does the map of exact revocations |
| `Revoker.Revoker.InsertPrefix` | ext/revoker/revoker.go:134-171 | so does the newest bucket, refused insertions included |
| `Revoker.Revoker.Revoke` | ext/revoker/revoker.go:139-155 | a request becomes the event that its pattern stands for |
| `Revoker.Revoker.IsRevokedExact` | ext/revoker/revoker.go:182-190 | true iff the latest exact event of the scope covers the time of issue, with its reason |
| `Revoker.Revoker.IsRevokedPrefix` | ext/revoker/revoker.go:192-206 | true iff some event was first of its prefix in a kept bucket, starts the scope and covers the time; the reason is that of the newest bucket's shortest prefix |
| `Revoker.Revoker.IsRevoked` | ext/revoker/revoker.go:173-180 | true iff either is, the exact reason first |
| `Countdown.RunsExactlyOnce` | internal/timewheel/timewheel.go:46-71 | over every sequence of ticks, additions and cancellations, what waits T ticks runs at exactly the (T+1)-th later tick and at no other |
| `Countdown.CanceledNeverRuns` | internal/timewheel/timewheel.go:55-57 | what is canceled in time never runs and is gone within as many ticks as there are slots |
| `TimeWheel.PlacedAt` | internal/timewheel/timewheel.go:91-111 | slot and rounds together stand for exactly the ticks of the delay |
| `TimeWheel.RemainingStep` | internal/timewheel/timewheel.go:50-68 | a tick takes one off what slot and rounds stand for, and only the current slot is due |
| `TimeWheel.SweepIsTick` | internal/timewheel/timewheel.go:46-68 | sweeping one slot and moving on is one tick of the whole list of countdowns |
| `TimeWheel.TicksOfDelay` | internal/timewheel/timewheel.go:94-99 | no tick for no delay, one for less than an interval, and otherwise as many as fit into it |
| `TimeWheel.ElapsedTime` | internal/timewheel/timewheel.go:91-99 | with evenly spaced ticks, delay - interval < elapsed <= max(delay, interval) + interval; a delay below one interval is over when it runs |
| `TimeWheel.Wheel.Add` | internal/timewheel/timewheel.go:85-111 | one more countdown, of the delay in ticks, and nothing else changed; the next tick runs it if and only if there is no delay |
| `TimeWheel.Wheel.Sweep` | internal/timewheel/timewheel.go:50-66 | the loop keeps, ages and hands over exactly the right objects of the slot, each once |
| `TimeWheel.Wheel.Tick` | internal/timewheel/timewheel.go:46-69 | a tick of the wheel is a tick of the countdown list, and hands over exactly what is due |
| `StreamReplay.ReplayUntilLastID` | typedhandler_job_redis.go:423-499 | the two nested loops compute the rounds of the replay, and replay nothing for a stream that does not exist or without a start |
| `StreamReplay.ReplaysWindow` | typedhandler_job_redis.go:423-499 | the replay hands over exactly the messages in (start, last], in order and once each, a hundred a read, and ends with the last of them, whatever is appended meanwhile |
| `StreamReplay.GroupDelivers` | typedhandler_job_redis.go:354-415 | the group delivers what is behind its id, in order and without gaps |
| `StreamReplay.HandoverIsExactlyOnce` | typedhandler_job_redis.go:311-326 | replay and group together dispatch each message behind start once, in order |
| `StreamReplay.HandoverCondition` | typedhandler_job_redis.go:311-326 | the replay never hands over what is the group's if and only if the last id is in the stream and behind start |
| `StreamReplay.Overruns` | typedhandler_job_redis.go:423-499 | otherwise one more message is enough to be delivered twice |
| `Sessions.NextIdenticalRequest` | session_manager.go:160-193 | after FULL the same request overflows, after OK it does not |
| `Sessions.ReleaseUndoesAdd` | session_manager.go:187-211 | freeing undoes consuming if and only if nothing consumed was negative |
| `Sessions.AddConserves` | session_manager.go:106-124 | a session that is let in keeps every amount equal to the sum over live sessions, whatever it asks for |
| `Sessions.ReleaseConserves` | session_manager.go:195-211 | the end of a session keeps that if and only if there is at least as much of everything as it frees |
| `Sessions.CoveredByOthers` | session_manager.go:195-211 | there is if and only if the other sessions together use no less than nothing of everything it frees |
| `Sessions.AddKeepsBalance` | session_manager.go:106-124 | a non-negative request that is let in keeps the amounts within their maximum as well |
| `Sessions.ReleaseKeepsBalance` | session_manager.go:195-211 | among non-negative sessions the clamp at zero never fires |
| `Sessions.NegativeUseBreaksBalance` | session_manager.go:160-211 | two sessions, both let in and conserved, of which the end of one is not |
| `Sessions.OwnStart` | session_manager.go:118-129 | after a session of its own starts, a handler is locked exactly when its request no longer fits, unless it was locked and the request still fits |
| `Sessions.OwnEnd` | session_manager.go:245-251 | unlocking at the end of a session is right if and only if no more was consumed than there is |
| `Sessions.OthersStart` | session_manager.go:118-129 | a session of another handler leaves a lock right, and leaves an unlocked handler right if and only if its request still fits beside it |
| `Sessions.OthersEnd` | session_manager.go:245-251 | the end of one leaves an unlocked handler right, and a lock if and only if the request still does not fit without it |
| `Sessions.LocksGoStale` | session_manager.go:118-129 | two handlers and two units: one is not locked though its request does not fit, and later the other is though its request does |
| `Sessions.Manager.EntryConsume` | session_manager.go:160-193 | the verdict is the same for every order of iteration; OVERFLOW changes nothing, and otherwise each amount is added once |
| `Sessions.Manager.Check` | session_manager.go:170-185 | the first loop finds that verdict in any order of iteration |
| `Sessions.Manager.Take` | session_manager.go:187-190 | the second adds each amount once, in any order |
| `Sessions.Manager.EntryFree` | session_manager.go:195-211 | each amount is taken off once, clamped at zero, in any order of iteration |
| `Sessions.Manager.CreateSession` | session_manager.go:106-129 | a session exists and its amounts are taken exactly when its request fits; the handler is locked exactly when it would not fit again; conservation is kept for any request, and every lock has a session of its handler |
| `Sessions.Manager.MayDeleteSession` | session_manager.go:229-254 | a session that is kept alive is renewed and keeps its resources; one that ends gives them back, clamped, unlocks the handler, and conserves exactly when all it frees is there; every lock left has a session |
| `Sessions.Manager.Collect` | session_manager.go:213-227 | the collector ends exactly the expired sessions that are not kept alive, each once, frees what they took in that order, unlocks exactly their handlers, and keeps the balance and the locks' sessions |
| `Futures.Future.Returns` | typedhandler_job_go.go:26-60 | the first outcome is kept and takes along the callbacks it is for; later ones do nothing |
| `Futures.Future.Then` | typedhandler_job_go.go:62-74 | a callback is started at once on a success already kept, and otherwise kept |
| `Futures.Future.Catch` | typedhandler_job_go.go:76-87 | the same for an error |
| `Futures.Future.Finally` | typedhandler_job_go.go:89-100 | the same for either |
| `Futures.DeliversExactlyOnce` | typedhandler_job_go.go:26-100 | over every interleaving each callback is called at most once, only with the kept outcome and only if it is for it, and is called when nothing is left to run |
| `Futures.EveryCallbackIsCalled` | typedhandler_job_go.go:26-100 | however far a run with a kept outcome has got, it can go on until each callback that it is for was called with it once, and no other |
| `Futures.FirstReturnIsKept` | typedhandler_job_go.go:26-36 | the kept outcome is that of the first `returns` |
| `Futures.AwaitSeesKept` | typedhandler_job_go.go:102-106 | whoever gets past the closed channel sees the kept outcome |
| `Futures.StepKeepsInv` | typedhandler_job_go.go:26-100 | every locked region and every single call of a callback keeps each callback in exactly one place |
| `IntervalLock.JobSet.Slice` | typedhandler_job_set.go:45-54 | the elements, each once |
| `IntervalLock.JobSet.Diff` | typedhandler_job_set.go:56-84 | the elements in none of the other sets, each once, on both paths |
| `IntervalLock.OneAtATime` | typedhandler_job_manager.go:81-229 | in every run of the dequeue loop with its workers and the wheel, a handler with an interval has at most one job dequeued and not finished |
| `IntervalLock.LockedExactlyWhileUnderWay` | typedhandler_job_manager.go:81-229 | whenever the loop is choosing handlers, such a handler is locked iff a job of it is under way, and is then not among the chosen; no lock is left behind |
| `IntervalLock.FoundIsFree` | typedhandler_job_manager.go:87-111 | a difference computed step by step while others unlock still never names a handler that is busy |
| `IntervalLock.JudgedAtOneMoment` | typedhandler_job_set.go:56-84 | each handler was judged at one moment of the poll: it is offered if and only if it was then locked neither for its interval nor for lack of resources |
| `IntervalLock.OffersHandlersOnly` | typedhandler_job_manager.go:87-88 | the loop asks for nothing but the handlers of its node |
| `IntervalLock.PutOffUntilFired` | typedhandler_job_manager.go:121-131 | a job that is put off does not run before the wheel fires it |
| `IntervalLock.OnlySpacedArePutOff` | typedhandler_job_manager.go:121-131 | only jobs of handlers with an interval are put off |
| `IntervalLock.IdleLocks` | typedhandler_job_manager.go:142-227 | while nothing is active, what is still locked is locked by jobs not begun or about to unlock |
| `IntervalLock.UnlocksInTurn` | typedhandler_job_manager.go:212-227 | a job that was put off unlocks before the counter goes down, one that ran at once after it |
| `IntervalLock.JobsGoOn` | typedhandler_job_manager.go:117-229 | a job that a worker has can always go on towards its end |
| `IntervalLock.LoopGoesOn` | typedhandler_job_manager.go:81-117 | the loop can always go on until it polls again |
| `IntervalLock.ActiveIsExact` | typedhandler_job_manager.go:142-149 | the counter of active jobs is the number of jobs in their bodies, and is never negative |
| `IntervalLock.StepKeepsInv` | typedhandler_job_manager.go:81-229 | every step of the loop, a worker or the wheel keeps that |
| `RouteOrder.ComparePaths` | typedhandler.go:41-61 | the loop decides that order |
| `RouteOrder.FirstDifferenceDecides` | typedhandler.go:41-61 | a path, with any slashes around, comes before another one if and only if at the first place where their pieces are of different kinds its piece is of the lower one, or the other path has ended |
| `RouteOrder.FixedThenParameterThenWildcard` | typedhandler.go:41-71 | at the first different place a fixed piece comes before a parameter and a parameter before a wildcard, whatever follows |
| `RouteOrder.SegmentsOfPath` | typedhandler.go:42-43 | the segments of a path are its pieces |
| `RouteOrder.StrictWeakOrder` | typedhandler.go:41-61 | the comparison is irreflexive and transitive, and paths it does not tell apart compare alike with every other, being those of equal scores |
| `RouteOrder.NarrowFirst` | typedhandler.go:41-71 | a path that another one widens segment by segment is tried first |
| `RouteOrder.NoneTooEarly` | typedhandler.go:73-86 | in the sorted list no route comes before one that it loses to |
| `RouteOrder.OrderIsUnique` | typedhandler.go:73-86 | whatever the list was and however it was sorted, the same kind of route is registered at each place |
| `Text.SplitJoin` | typedhandler.go:42-43 | splitting a string into segments loses nothing |
| `Text.JoinSplit` | typedhandler.go:42-43 | and joining pieces that hold no separator loses nothing either |
| `Text.NoSeparator` | typedhandler.go:42-43 | no segment holds a separator |
| `IntervalLock.JobSet.Add` | typedhandler_job_set.go:16-21 | one element more |
| `IntervalLock.JobSet.Remove` | typedhandler_job_set.go:23-28 | one element less |
| `TimeWheel.Wheel.Repeat` | internal/timewheel/timewheel.go:71-77 | a repeating timer is a new, uncanceled object, whatever became of the old one |
| `TimeWheel.Wheel.constructor` | internal/timewheel/timewheel.go:31-39 | a new wheel has nothing pending; 32 slots when none are asked for |
| `SqlStore.Store.constructor` | typedhandler_job_sql.go:80-93 | an empty store is valid |

## Left out

- `JobProtocol.CurrentLeasesSuffice`: assumes that a holder stops or renews before its lease is over; nothing in the code enforces it.
- `Acquisition.AcquiredAtMostOnce`: speaks of direct callers. A persistent `Done` leaves the row leased, so after a heartbeat the row can be reaped and run again by a worker.
- `CacheTransparency.Transparent`: is for handlers without `IdempotencyKey` and without TTL that are deterministic at each version.
- `StreamReplay.HandoverIsExactlyOnce`: is for streams that are not trimmed while a replay runs.
- `JobId.Injective`: that two inputs have different ids is subject to SHA-256 not colliding on them; of the hash, the theorems on cached calls assume its shape and that no two of the strings hashed in the run collide (`Sound`).
- `TimeWheel.Wheel.Add`: is for delays that are not negative; the callers never pass a negative one.
- `RouteOrder.NoneTooEarly`: takes `sort.Slice` at its promise, a permutation in which no element is less than the one before it.
- The TTL branch of `Done` (typedhandler_job_sql.go:723-733), whose INSERT omits columns that must not be null.
- What becomes of a job that a direct caller marks for a requeue: it may be leased with no holder, so no progress is claimed.
- First-time `replay` mode (typedhandler_job_redis.go:298-310), which creates its group at the start it replayed from and delivers twice.
- The time between two runs of a handler with an interval: `lastRun` is the time of dispatch, so only exclusion is claimed.
- `call_job`, the worker loop and the Redis group are step machines on values rather than objects with fields; every mutex-protected region and every statement is one step, and the Go memory model below that is not modelled.
- Panics in handlers, database and network errors, transactions that fail, administration calls on rows that others hold, logging.
- `OnInputUpgrade` and `OnOutputUpgrade`: a worker at another major or minor version than its job calls the first without looking whether it is set (typedhandler_job.go:387-389), so here such a worker never finishes; it can only crash.
- The polling and timeouts of `Wait`, the adaptive interval of the throughput average.
- The `rootid IS NULL` cases of the triggers: every statement of the store binds a string.
- Integer widths: amounts of resources and versions are unbounded integers.
- How SQLite compares DATETIME text: times are compared as numbers.
- The one-element list around the map of exact revocations, and the stream that carries requests to the nodes.
- JSON and reflection: encoding is a function with an inverse.
- HTTP, MCP, OpenAPI, CLI, JWT, casbin, S3, AI clients, YAML, merging of configurations, cron and time parsing: plumbing, or easier than what is here.
