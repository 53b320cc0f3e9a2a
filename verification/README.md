# Verification of the reward-payout engine

A Dafny model of the parts of the reward service where concurrency, state and arithmetic meet, with
proofs about every run of them.

* **Payout queue.** `PayoutQueue` is one admin's bounded channel, worker, `lastDone` and clock as a step
  machine; `Latency` adds the runs with exact sleeps; `QueueManager` is the manager as a class, with a ring
  buffer per admin, refining that machine; `DoubleChecked` is the lazy creation of queues and clients under
  the read-write lock, statement by statement; `ClientPool` is the client map as a class.
* **Request ledger.** `Ledger` is the two tables, the points sum and the SQL builders; `PayoutSystem` joins
  request handlers, every admin's queue and worker, the tables and the clock into one machine, and shows that
  each admin's share of a run is a run of `PayoutQueue`; `LedgerInvariant` and `LedgerTheorems` hold the
  invariant and what follows from it; `FinalRows` says exactly when a finished job's row can still become final;
  `StuckPayout` holds the runs in which a finished transfer never leaves "processing"; `PayoutService` is the
  handler and the worker's job as sequences of effects; `WorkerRun` shows that the machine can do what that job does.
* **Refresh tokens.** `RefreshTokens` is the token table and every call on it, one SQL statement per step;
  `RefreshTheorems` holds what every interleaving keeps; `RefreshCalls` is whole calls, on a class and as
  blocks of statements, and what overlap breaks.
* **Diagnostics.** `FailureReason` (the regular expression under which failures are grouped), `MismatchText`
  (reading chain heads out of an error), `Diagnostics` (summary and failure groups), `ForkCheck`,
  `ContractHeads` (grouping), `FetchPool` (the semaphore-bounded fetches), `IntervalOverrides` (the parser of
  per-admin intervals) and `Startup` (handing its result to the queue manager, and the settings that result).

A machine is a datatype of states, a predicate `Enabled`, a function `Apply` and lists of events; a lemma about
`Exec` over all `Legal` lists speaks about every interleaving. State components that the program does not keep
(what was accepted, started, paid, lost) are histories, named as such where they are declared.

Results are stated over rows, queues and literal constants. Where a statement uses a definition of the model, a lemma
named after it, `...Is` or `...Are`, writes out what the definition means.

`dafny verify dfyconfig.toml` checks everything.

## Assumptions

* Each SQL statement, each channel operation and each critical section of the manager's lock is one step.
* The clock does not go backwards and is positive; 0 stands for Go's zero time. A sleep lasts at least as long
  as asked. Only `Latency` and `QueueManager.Manager.Work` assume exact sleeps and prompt scheduling.
* A ledger insert may be stored and still be reported as failed; a ledger update takes effect or is lost, and cannot
  take effect once the context it uses has expired. These are events of the payout machine. In the token table any
  statement may be a call's last, and in `RefreshCalls` any one statement of a call may be reported as failed, with or
  without having taken effect.
* The database's encoding is UTF-8. Texts are sequences of characters; where the source counts bytes, so does the
  model (`Text.ByteLength`). A column takes a text if it holds no zero character and, for VARCHAR(n), exceeds n
  characters by blanks only, which are cut. An error text that is not UTF-8 is the outcome `Garbled`.
* Request ids, token ids and token hashes are fresh. SHA-256 is taken to be injective, so a hash names a token.
* PostTx and Sign are one step that yields a transaction or an error; in the fork check,
  fetching a chain is a function of the contract.

## What turned out not to hold

* **A finished transfer can stay "processing" for ever.** The troubleshooting notes promise that the worker marks
  such a row failed (`README.md:744-748` of the repository). The write that records the outcome is attempted once and
  its error is only logged (`internal/queue/manager.go:227-238`), and it fails in any of these cases:
  the deadline of the job's context has passed (`internal/queue/manager.go:206`; it is twice the HTTP timeout,
  `cmd/server/main.go:56-57`, which PostTx and Sign together can use up); the points exceed the 4-byte INTEGER of
  `reward_points` (`migrations/001_init.sql:20`) while the sum is a bigint; the transaction id, which `Sign` takes from
  the node's answer as it is (`internal/rubix/tx.go:121-140`), or the contract's hash is wider than VARCHAR(128); a
  text holds the zero character, which JSON can spell; the error text was cut inside a character
  (`internal/rubix/client.go:148-153`) and is no UTF-8. The exact condition is
  `FinalRows.FinalIffInDeadlineAndFitting`: once the outcome is known, its row can still become final if and only if the
  deadline has not passed and the columns take the outcome. `StuckPayout` has the runs: for the deadline, for points,
  for a transaction id of 129 characters and for unprintable failures.
* **The row of a refused request, or of one answered 500, can stay "queued" for ever.** The handler's two writes use the context of the
  client's request (`internal/server/handlers.go:45`, `internal/server/handlers.go:68`), which ends when the client
  goes away. For whole runs, `FinalRows.AllFinalIffAllLand`: on a database that makes every write it can, all rows are
  final at rest if and only if every outcome came in time and fitted, every refusal was written down, and every stored
  request was reported as stored.
* **A long interval override disables the spacing it asks for.** Milliseconds are multiplied in 64 bits. The
  duration is the one asked for if and only if the number is at most 9223372036854; the next number is stored as a
  negative duration, which `SetAdminMinInterval` clamps to zero, and then every job starts at once. The comment above
  the parser promises that a typo cannot silently drop a protection; the model follows the code.
* **A login's lineage need not be one chain with one live token.** `RotateRefresh` reads, inserts and updates in
  separate statements. Two overlapping rotations of one token both succeed and leave two live tokens; and a single
  rotation that stops between its insert and its update (`internal/auth/refresh.go:79-85`) leaves the presented token
  and the replacement live, with no overlap. These are the only ways: with no call under way, a lineage is one chain from
  its login if and only if no rotation of it found its token revoked at its last statement and none stopped after its
  insert. A user is locked out after a family revocation if and only if no rotation of theirs has passed its checks.

## Worth knowing

* **A repaired fork that has been paid through reads as forked.** `forked` is defined as the quorum's head in the newest
  mismatch differing from the owner's current head (`docs/debug-api.md:175`), so the code does what the table says. But
  the reading guide takes equal heads as repaired and advises to confirm with one live payout
  (`docs/debug-api.md:186-187`); that payout moves the owner's head on, and the next report then says "already repaired"
  and `forked: true` together. `ForkCheck.RepairedYetForkedIff` says on which inputs, and
  `ForkCheck.SuccessAfterRepairReadsForked` gives them.
* **The default spacing wraps like the overrides.** `PAYOUT_MIN_INTERVAL_MS` goes through the same 64-bit product
  (`internal/config/config.go:97`); a default of -9223372036855 even becomes a spacing of about 292 years
  (`Startup.DefaultSpacing`).

## Model

| member | source | states |
|---|---|---|
| PayoutQueue.RemainingExact | internal/queue/manager.go:192-200 | interval minus elapsed time, in 64-bit saturating and wrapping arithmetic, is positive exactly while the gap is not over and then ends exactly at lastDone plus interval |
| PayoutQueue.InvExec | internal/queue/manager.go:125-200 | conservation, spacing and capacity are kept by every run from any state that has them |
| PayoutQueue.FifoAndCapacity | internal/queue/manager.go:125-188 | accepted jobs are, in order, those done, the one in hand, those in the channel; starts are a prefix of acceptances; at most capacity + 1 wait |
| PayoutQueue.Spacing | internal/queue/manager.go:181-200 | every job after the first starts at least the interval after the previous one ended |
| PayoutQueue.CountSpaced | internal/queue/manager.go:192-200 | spaced start times cannot crowd a window, counted by an independent function |
| PayoutQueue.WindowBound | internal/queue/manager.go:181-200 | any window of length t holds at most t / interval + 1 starts, counted as the set of jobs that start in it |
| PayoutQueue.SendIs | internal/queue/manager.go:130-135 | a send is taken exactly while the channel has room, goes last, and is logged with its time; otherwise only the refusal is logged |
| Latency.BoundedWait | internal/queue/manager.go:125-200 | with exact sleeps and jobs of at most D, an accepted job starts within bufferSize * (D + interval) + interval |
| Latency.SentJobWaits | internal/queue/manager.go:125-200 | from the sender's side: the job accepted at some moment of a run is, at its end, started within that wait, or the wait is not over |
| Latency.PromptNeverStuck | internal/queue/manager.go:181-200 | prompt runs can always go on, so the bound is not vacuous |
| Latency.BatchSchedule | internal/queue/manager.go:181-200 | jobs accepted together on a fresh admin start at the sum of the earlier durations plus k intervals, exactly |
| QueueManager.OneJobRuns | internal/queue/manager.go:181-200 | one turn of the worker loop is a legal run of the abstract machine with this start, end and lastDone |
| QueueManager.AdminQueue.TrySend | internal/queue/manager.go:130-135 | the ring buffer accepts exactly when not full and appends; otherwise nothing changes |
| QueueManager.AdminQueue.Receive | internal/queue/manager.go:183 | the oldest job leaves the ring buffer and the rest keeps its order |
| QueueManager.Manager.constructor | internal/queue/manager.go:73-91 | defaults for a non-positive buffer size and timeout; no queues |
| QueueManager.Manager.SetMinInterval | internal/queue/manager.go:96-101 | negative intervals become zero |
| QueueManager.Manager.SetAdminMinInterval | internal/queue/manager.go:108-113 | sets one admin's interval, negative ones to zero, no other admin's |
| QueueManager.Manager.GetOrCreate | internal/queue/manager.go:153-175 | an existing queue is returned and never replaced; a new one is empty and of full capacity |
| QueueManager.Manager.Send | internal/queue/manager.go:130-135 | the send is the abstract machine's Accept or Refuse step, for every abstract state the queue shows |
| QueueManager.Manager.Enqueue | internal/queue/manager.go:125-136 | accepted exactly when there is room; the job goes last into its own admin's channel and no other channel changes |
| QueueManager.Manager.Snapshot | internal/queue/manager.go:140-150 | per-admin depths, and a total that is their sum |
| QueueManager.Manager.WaitForSpacing | internal/queue/manager.go:192-200 | sleeps exactly what is missing, once, or not at all |
| QueueManager.Manager.Serve | internal/queue/manager.go:183-187 | one job: received from the front, started when due, stamped at its end; the abstract run grows by the matching events |
| QueueManager.Manager.Work | internal/queue/manager.go:181-188 | draining the channel runs its jobs once each, in order, for as long as each takes; each starts exactly one interval after the last, the first at once or one interval after the stamp; and it is a run of the abstract machine |
| DoubleChecked.EntriesStay | internal/queue/manager.go:153-175 | no step replaces or removes a map entry |
| DoubleChecked.EntriesStayForever | internal/queue/manager.go:153-175 | no run does |
| DoubleChecked.SameKeySameObject | internal/queue/manager.go:153-175 | two callers that returned have the same object if and only if they asked for the same key |
| DoubleChecked.OneWorkerPerEntry | internal/queue/manager.go:170-173 | each started worker belongs to one entry and, with no creation under way, each entry has one |
| DoubleChecked.ReturnedHasWorker | internal/queue/manager.go:153-175 | whatever a caller got has a worker, so no accepted job lies in a channel nobody reads |
| DoubleChecked.NeverStuck | internal/queue/manager.go:153-175 | in every reachable state with an unserved caller some caller can take its next step, so the lock never deadlocks |
| DoubleChecked.RefinesAtomic | internal/rubix/pool.go:26-45 | every statement-level step is a step of atomic get-or-create or changes nothing visible |
| DoubleChecked.GetOrCreateIs | internal/rubix/pool.go:26-45 | that atomic step gives one caller the key's object, or a new one that no key has and that becomes the key's |
| ClientPool.Pool.ForBaseURL | internal/rubix/pool.go:26-45 | an error exactly on the empty URL; one client per URL, kept |
| Ledger.SumPointsIsSumListed | internal/database/queries.go:391-405 | the query's sum is the sum over the distinct listed ids of their current points |
| Ledger.SumPointsIgnoresOrderAndRepeats | internal/database/queries.go:391-405 | order and repetition of the listed ids do not matter |
| Ledger.PutActivityReplaces | internal/database/queries.go:287-301 | re-adding an activity replaces its points in every sum that lists it and touches no other sum |
| Ledger.EncodesAligned | internal/database/queries.go:63-79 | placeholders appear once each, in order, aligned with their arguments, one per field |
| Ledger.AnyOrderIsSimultaneous | internal/database/queries.go:63-79 | whatever order the map is iterated in, running the SET list is the simultaneous update |
| Ledger.BuildUpdate | internal/database/queries.go:55-79 | succeeds exactly when all fields are allowed; the built lists encode the update plus updated_at, the key comes last |
| Ledger.Store.CreateTransferStatus | internal/database/queries.go:22-47 | inserts one row unless the key exists or a column does not take its value; trailing blanks beyond a column's width are cut |
| Ledger.Store.UpdateTransferStatus | internal/database/queries.go:51-88 | the simultaneous field update on exactly that request, or one of the errors and no change; a value its column does not take is an error |
| Ledger.Store.CreateActivity | internal/database/queries.go:287-301 | inserts or overwrites one activity; rejects keys and points that their columns do not take |
| Ledger.UpdateRowIs | internal/database/queries.go:51-88 | which of the four answers an update gets, from its columns, their values and the key, and the table each leaves |
| Ledger.ColumnsAre | migrations/001_init.sql:13-27 | which columns a caller may set and what each takes: 4-byte integers, 128 characters, no zero character |
| Ledger.BuildHistory | internal/database/queries.go:516-530 | for every combination of optional filters, the built conditions hold of exactly the admin's reward rows with that status and not older than since; placeholders are consecutive and the limit comes last |
| PayoutSystem.ShareStep | internal/queue/manager.go:125-243 | one event of the whole system is at most one event of a given admin's queue |
| PayoutSystem.ProjectionIsSoloRun | internal/queue/manager.go:125-200 | any run restricted to one admin is a legal run of a one-admin manager with the same acceptances, refusals, starts and times |
| PayoutSystem.NoInterference | internal/queue/manager.go:125-200 | two runs that agree on one admin's events agree on all that admin can observe |
| LedgerInvariant.InvStep | internal/queue/manager.go:205-243 | every step of handlers, workers, database and clock keeps the invariant that ties each row's status to where its job is |
| LedgerInvariant.InvExec | internal/server/handlers.go:45-83 | so does every run |
| LedgerTheorems.Reachable | internal/queue/manager.go:125-243 | the invariant holds in every reachable state |
| LedgerTheorems.OnePlace | internal/queue/manager.go:125-243 | a request is where its place says, at its handler, at one position of one channel or with one worker, and nowhere else |
| LedgerTheorems.StatusTellsPlace | internal/queue/manager.go:205-243 | for each row none of whose own writes was lost: queued exactly when the job is in one place before its start, processing exactly when one worker runs it between its two writes |
| LedgerTheorems.QuietMeansFinal | internal/queue/manager.go:205-243 | with handlers and workers idle and channels empty, a row is terminal if and only if its last write took effect; FinalRows says when it can |
| LedgerTheorems.ForwardStep | internal/queue/manager.go:208-238 | no step moves a row's status back, and terminal rows do not change |
| LedgerTheorems.RowsOnlyMoveForward | internal/queue/manager.go:208-238 | over whole runs, whatever writes fail, status rank never falls, terminal rows stay as they are, and a lost last write leaves the row for ever |
| LedgerTheorems.StartedAtMostOnce | internal/queue/manager.go:181-188 | each request's job is started at most once |
| LedgerTheorems.RefusedNeverRuns | internal/server/handlers.go:62-83 | a refused job is never touched by a worker in any continuation |
| LedgerTheorems.SuccessPointsAreTheSum | internal/service/service.go:329-335 | every success row's points are positive and equal the sum over its activities as they were when the worker summed them |
| LedgerTheorems.TotalsNeverDecrease | internal/database/queries.go:364-387 | a user's total per admin never decreases over any run |
| LedgerTheorems.TotalIsWhatWasPaid | internal/database/queries.go:364-387 | the total is the sum of the successes recorded for that user and admin |
| FinalRows.FittingMeansAllFit | internal/database/queries.go:51-88 | the update for an outcome fits its columns exactly when the error is UTF-8 without the zero character, or the points are a 4-byte integer, both ids fit 128 characters, and neither they nor the quoted names hold the zero character |
| FinalRows.UnfittingNeverFinal | internal/queue/manager.go:205-238 | an outcome its columns do not take never becomes final, however early it is known |
| FinalRows.NeverFinal | internal/queue/manager.go:205-238 | once the deadline has passed, or if the outcome does not fit, no continuation ever changes the row and it stays open |
| FinalRows.FinalIffInDeadlineAndFitting | internal/queue/manager.go:205-238 | a known outcome can still become the row's final status if and only if the clock is before the job's start plus procTimeout and every column takes what it writes |
| FinalRows.FittingIs | migrations/001_init.sql:13-27 | every column takes an outcome if and only if its texts are UTF-8 without the zero character, its points lie within 4 bytes, and its ids have nothing but blanks beyond 128 characters |
| FinalRows.TooManyPointsNeverFinal | internal/service/service.go:329-335 | a payment of more points than the column holds never becomes final, however early it is known |
| FinalRows.AllFinalIffAllLand | internal/queue/manager.go:205-243 | when the database makes every worker's write it can, at rest every row is final if and only if every outcome came in time and fitted, every refusal was written down and every stored insert was reported as stored |
| LedgerTheorems.EveryAdminIsServedInOrder | internal/queue/manager.go:125-200 | inside the whole system an admin's jobs are accepted, started and finished in one order, and at most capacity + 1 accepted jobs have not started |
| LedgerTheorems.EveryAdminIsSpaced | internal/queue/manager.go:116-121 | and between the end of each job and the next start lies the admin's override, or the common interval if it has none |
| LedgerTheorems.EveryAdminIsBounded | internal/queue/manager.go:192-200 | and no window of length t holds more than t / interval + 1 of its starts |
| LedgerTheorems.SendAccepted | internal/queue/manager.go:130-132 | in the whole system a send with room puts the job last into its admin's channel and changes no other queue |
| LedgerTheorems.SendRefused | internal/queue/manager.go:133-135 | a send without room changes no channel and leaves the handler to compensate |
| LedgerTheorems.JobsGoOn | internal/queue/manager.go:205-243 | a job under way can go on at every stage, with every outcome, its first write exactly before start plus timeout, and lose its writes at any time |
| StuckPayout.PaidButProcessing | internal/queue/manager.go:205-238 | for every valid request the tables can hold, listing an activity they can hold, there is a reachable state in which it has just been paid; up to the last instant before start plus procTimeout its row can become final, at that instant no longer, and a run to rest leaves it processing |
| StuckPayout.UnfittingOutcomeStaysProcessing | internal/queue/manager.go:205-238 | each such request can end, within its deadline, in any failure or payment of its activity's five points that the columns do not take; no continuation makes its row final and some leave it processing at rest |
| StuckPayout.LongTransactionIdStaysProcessing | internal/rubix/tx.go:121-140 | so it is with any transaction id of 129 characters |
| StuckPayout.UnprintableFailureStaysProcessing | internal/rubix/client.go:148-153 | so it is with any failure whose text holds the zero character or is not UTF-8 |
| StuckPayout.OversizedPaymentStaysProcessing | internal/service/service.go:329-335 | any such request for two activities of 2147483647 points can be paid within its deadline; no continuation makes its row final and some leave it processing at rest |
| PayoutService.Server.ValidateTransferReward | internal/service/service.go:298-317 | accepts exactly if both DIDs have at least 20 bytes and start with "bafyb" or "Qm", the admin is registered, and there is an activity, each with a character that is no space |
| PayoutService.Server.HandleTransferReward | internal/server/handlers.go:28-90 | 400 exactly unless both DIDs, the admin and the activities are as above, and then nothing changed; for the other codes table and channels are as RowsToldIs and ChannelsToldIs say |
| PayoutService.RowsToldIs | internal/server/handlers.go:45-90 | 202: the row, field by field, queued; 503: the same failed with its two texts, or queued if the compensating write is lost; 500 exactly on a taken id, an insert not reported as done or values the columns refuse, and a row only if it was done and misreported |
| PayoutService.ChannelsToldIs | internal/queue/manager.go:125-136 | 202: there was room and the job is last in its admin's channel; 503: there was none and nothing waits that did not wait before; otherwise no channel changed |
| PayoutService.Server.Persist | internal/server/v1_aliases.go:118-160 | the same protocol after validation, shared by the second producer |
| PayoutService.Server.ProcessTransferReward | internal/service/service.go:323-385 | pays exactly the points sum, refuses a sum of zero or less with the source's text, passes errors through |
| PayoutService.Server.AddActivity | internal/service/service.go:213-249 | stored, under their admin and with their points, are exactly the valid activities that the chain took and that their columns take; the call fails for all others |
| PayoutService.Server.ProcessOne | internal/queue/manager.go:205-243 | the row after the two writes, field by field: failed with the reason, or successful with message, points, transaction and hash, unless the last write is late or some column does not take it, and then as the first write left it |
| WorkerRun.MachineRunsTheJob | internal/queue/manager.go:205-243 | from any state in which a worker has taken up a job, the machine has a run to the outcome and the row that ProcessOne computes, for every way the job can meet the outside world |
| RefreshTokens.InvStep | internal/auth/refresh.go:36-105 | every statement of every call keeps the table invariant: links from revoked rows to later tokens of the same lineage, no shared target, and unlinked tokens are exactly logins, orphans and pending replacements |
| RefreshTokens.InvExec | internal/database/auth.go:114-173 | so does every interleaving; rows are never deleted |
| RefreshTheorems.RevokedIsFinal | internal/database/auth.go:149-173 | a revoked row never changes again, so revoked_at is never cleared and replaced_by is set at most once |
| RefreshTheorems.ChainsMerge | internal/auth/refresh.go:75-86 | chains that meet are one chain |
| RefreshTheorems.ChainsAreDisjointAndAcyclic | internal/auth/refresh.go:54-86 | in every reachable state chains ascend, stay with one user, do not return, and are disjoint unless one runs through the other's start |
| RefreshTheorems.LineageIsOneChain | internal/auth/refresh.go:54-86 | in a lineage with no other unlinked token, at most one token is live, and every token is reached from the login and leads to the live one |
| RefreshTheorems.OneChainIffUnforked | internal/auth/refresh.go:54-86 | the login leads to every token of its lineage if and only if it is the only unlinked one |
| RefreshTheorems.OrphansArise | internal/auth/refresh.go:75-86 | a replacement is left unlinked exactly when the last statement finds the presented token revoked or the rotation stops between insert and update |
| RefreshTheorems.OneChainIffUndisturbed | internal/auth/refresh.go:54-86 | over every run, with no call under way, a lineage is one chain from its login if and only if neither happened in it |
| RefreshTheorems.LiveTokensHaveDistinctHeads | internal/auth/refresh.go:54-86 | under every interleaving, two live tokens descend from two different unlinked tokens |
| RefreshTheorems.LinkedIffStillUnrevoked | internal/auth/refresh.go:83-85 | the replacement is linked if and only if the presented token was still unrevoked; otherwise nothing changes and it stays live |
| RefreshTheorems.LockedOutIffBarred | internal/server/auth_handler.go:82-92 | a user stays without live tokens until the next login, whatever interleaves, if and only if there are none now and no rotation of theirs has passed its checks |
| RefreshCalls.TokenStore.InsertRefreshToken | internal/database/auth.go:114-126 | appends a row unless the hash exists |
| RefreshCalls.TokenStore.GetRefreshTokenByHash | internal/database/auth.go:131-145 | finds a row with the hash, revoked or not, or there is none |
| RefreshCalls.TokenStore.RevokeRefreshToken | internal/database/auth.go:149-159 | revokes and links the row if it is not revoked yet |
| RefreshCalls.TokenStore.RevokeAllRefreshTokensForUser | internal/database/auth.go:163-173 | row by row: exactly this user's live tokens get the time, every other row is as it was, and the user has no live token |
| RefreshCalls.TokenStore.IssueRefresh | internal/auth/refresh.go:36-48 | a new live token; an error and no change on a duplicate hash or a failed insert; an error and a new token on an insert done and misreported |
| RefreshCalls.TokenStore.RotateRefresh | internal/auth/refresh.go:54-86 | without a fault: rotated if and only if the token is in the table, not revoked, not past its expiry and the drawn hash is new; expired, reused, invalid and failed each exactly in their own case; under faults as FaultsOfRotation says |
| RefreshCalls.VerdictOfToken | internal/auth/refresh.go:58-77 | the verdict on a token in the table, from its row alone: it is rotated up to and at its expiry |
| RefreshCalls.RefreshRows | internal/auth/refresh.go:72-86 | the table after a refresh, row by row: the presented row revoked and linked and one live row added; on reuse the owner's live rows revoked; otherwise unchanged |
| RefreshCalls.FaultsOfRotation | internal/auth/refresh.go:58-86 | for each statement that may be reported as failed, taking effect or not, the answer and the table of a rotation that would have succeeded |
| RefreshCalls.LoginAndLogoutRows | internal/auth/refresh.go:36-105 | the table after a login and after a logout, row by row |
| RefreshCalls.TokenStore.RevokeRefresh | internal/auth/refresh.go:90-105 | revokes the token if it is known and live; idempotent otherwise; an error exactly when a statement it needs is reported as failed |
| RefreshCalls.TokenStore.HandleRefresh | internal/server/auth_handler.go:71-115 | without a fault: 200 if and only if the token is in the table, not revoked, not past its expiry and the drawn hash is new; 401 exactly for unknown, revoked and expired ones; under faults status and table by the verdict, the family revoked on reuse unless that fails |
| RefreshCalls.TokenStore.HandleLogin | internal/server/auth_handler.go:20-66 | a login adds one live token; blank input, look-up errors, wrong credentials and a failed insert change nothing; an insert done and misreported answers 500 and leaves the token live |
| RefreshCalls.TokenStore.HandleLogout | internal/server/auth_handler.go:119-149 | revokes the one token, or every token of the user, and nothing else; errors change nothing unless the write took effect and was misreported |
| RefreshCalls.BlockEffect | internal/server/auth_handler.go:20-149 | a call that runs alone, as its statements, has the sequential effect and leaves nothing pending |
| RefreshCalls.BlockLinksIff | internal/auth/refresh.go:54-86 | a refresh that runs alone goes through to its link if and only if the token passes the statement machine's check and the drawn hash is new |
| RefreshCalls.JudgeIs | internal/auth/refresh.go:58-70 | that check, from the token's row: reused if revoked, passed up to and at its expiry |
| RefreshCalls.FaultyRotationIsRun | internal/auth/refresh.go:54-86 | whichever statement of a rotation fails, the table it leaves is that of a run of statements, with an orphan exactly if it stopped after its insert |
| RefreshCalls.OneLiveTokenPerLogin | internal/server/auth_handler.go:55 | for calls that do not overlap, each login has at most one live token and it ends the chain of all its tokens |
| RefreshCalls.ReuseLocksTheUserOut | internal/server/auth_handler.go:82-92 | presenting any revoked token leaves its owner without a live token through any later calls but a login |
| RefreshCalls.OverlapForksTheLineage | internal/auth/refresh.go:54-86 | from any state between calls, two overlapping rotations of one live token leave two live tokens in its lineage |
| RefreshCalls.StoppedRotationForksTheLineage | internal/auth/refresh.go:79-85 | from any state between calls, one rotation that stops after its insert leaves the presented token and the replacement live, and the lineage forked |
| FailureReason.MatchIsLongest | internal/database/queries.go:480-483 | the scanner's match is the longest prefix in the pattern's language |
| FailureReason.OutputIsClean | internal/database/queries.go:480-483 | no id is left in, or created by, the output |
| FailureReason.ReasonIsNormal | internal/database/queries.go:480-483 | a reason holds no id, has at most 200 characters, and normalising it again changes nothing |
| FailureReason.ReasonIs | internal/database/queries.go:480-483 | it is the first 200 characters of the normalised text |
| FailureReason.Distributes | internal/database/queries.go:480-483 | before the cut, normalising distributes over any character no id contains |
| FailureReason.IdsAre | internal/database/queries.go:480-483 | the ids are 64 characters of 0-9a-f, "bafybmi" and one or more of 0-9a-z, and "127.0.0.1:" and one or more digits |
| FailureReason.IdsBecomeHashes | internal/database/queries.go:480-483 | between delimiters every id becomes one '#' and every piece without an id stays as it is |
| FailureReason.SameReasonUpToIds | internal/database/queries.go:480-483 | texts that differ only in delimited ids, of whatever kind, get the same reason |
| Diagnostics.SummaryBalances | internal/database/queries.go:435-454 | total = success + failed + in flight; mismatch <= failed; mismatch times are present exactly when there is one, in order and inside the window |
| Diagnostics.SummaryCounts | internal/database/queries.go:435-454 | each of the five counts is the number of the window's rows with that status, a mismatch being a failure that mentions it |
| Diagnostics.SummaryTimes | internal/database/queries.go:435-454 | each of the three times is that of a row of its kind, and no row of that kind lies beyond it |
| Diagnostics.WindowIs | internal/database/queries.go:435-454 | the window: reward rows not older than since, of one admin or of all |
| Diagnostics.MentionsIs | internal/database/queries.go:420-454 | a text mentions the mismatch if and only if "chain mismatch" occurs in it |
| Diagnostics.LastSuccessTxAgrees | internal/database/queries.go:446-448 | last_success_tx, documented as regardless of the window, is the transaction of a success created exactly at the reported last success when there is one; otherwise all successes, its own included, are older than the window |
| Diagnostics.LastSuccessTxOutlivesWindow | internal/database/queries.go:446-448 | with only an older success it is reported without a last success |
| Diagnostics.SummaryRowsAddUp | internal/database/queries.go:435-454 | in each of the five counts the per-admin rows account for every transfer of the window once |
| Diagnostics.FailureGroupsPartition | internal/database/queries.go:488-496 | group counts add up to the failed total exactly when the limit drops no group; no dropped group is larger than a kept one |
| MismatchText.HeadsReadBack | internal/server/debug_handler.go:156-158 | the heads read are those of the leftmost full match, lone markers before it being skipped |
| MismatchText.MessageReadsBack | internal/server/debug_handler.go:170-180 | contract and heads are those of the first full matches |
| MismatchText.MessageRoundTrip | internal/server/debug_handler.go:156-180 | from a message written around any contract and heads, with any text before, between and after, exactly these are read, if no earlier text holds "token " or "local latest " |
| MismatchText.ContractIs | internal/server/debug_handler.go:156-158 | a contract is one or more characters that are no white space of the pattern |
| ForkCheck.ContractInfo.FillHead | internal/server/debug_handler.go:444-457 | the record after a fetch: length, position and head of the last entry, or the error |
| ForkCheck.ReadRegistry | internal/server/debug_handler.go:477-482 | the last row's port and the last reward row's contract |
| ForkCheck.FirstRewardMismatchAfter | internal/database/queries.go:585-595 | the earliest of this admin's failed reward rows later than t that mention the mismatch, or none |
| ForkCheck.ReadMismatch | internal/server/debug_handler.go:500-518 | what the newest mismatch row says; a parsed contract overrides the registry's |
| ForkCheck.ForkIsDated | internal/server/debug_handler.go:519-531 | first_mismatch_at is reported exactly when the newest mismatch is later than the last success or there is none, and is then the earliest such mismatch |
| ForkCheck.FillOwnerHead | internal/server/debug_handler.go:541-554 | the owner's current head and length, or exactly why they are not known |
| ForkCheck.HandleDebugForkCheck | internal/server/debug_handler.go:460-538 | 400 exactly without an admin, 500 exactly if a query that is made fails; otherwise the newest mismatch reported is a failed reward row of this admin that mentions it, newest of all these, and absent exactly if there is none; every other field as the Reported lemmas say |
| ForkCheck.ReportedSuccess | internal/database/queries.go:573-580 | last success and its transaction are those of one of this admin's newest successful reward rows, absent exactly if there is none |
| ForkCheck.ReportedFirst | internal/server/debug_handler.go:519-531 | first_mismatch_at is the earliest of this admin's mismatches after the last success, absent exactly if there is none |
| ForkCheck.ReportedHeads | internal/server/debug_handler.go:505-518 | both heads and the contract are read from the newest mismatch; without a contract in it the registry's is kept |
| ForkCheck.ReportedNote | internal/server/debug_handler.go:489-531 | which of the three notes is given, or none |
| ForkCheck.ReportedOwner | internal/server/debug_handler.go:533-554 | what the report says of the owner's node for every answer, and the verdict |
| ForkCheck.RewardContractIs | internal/server/debug_handler.go:477-482 | the contract is the hash on the last reward row of the registry |
| ForkCheck.RepairedYetForkedIff | internal/server/debug_handler.go:519-536 | a report says both "already repaired" and forked if and only if the newest mismatch is followed by a success, names a quorum head, and the node answers for its contract with another head |
| ForkCheck.RepairedYetForkedOnInputs | internal/server/debug_handler.go:519-536 | with one newest mismatch that condition is on ledger, registry and node alone |
| ForkCheck.SuccessAfterRepairReadsForked | docs/debug-api.md:175-187 | on every ledger of a mismatch and a later success, with the node's chain ending in another transaction than the quorum's old head, every report says both |
| ForkCheck.WrittenMessageQualifies | internal/server/debug_handler.go:170-180 | such a ledger exists for any contract and heads: the quorum's message is stored as written |
| ContractHeads.GroupingRearranges | internal/server/debug_handler.go:395-418 | every registry row is in exactly one group, once |
| ContractHeads.AdminsOfRows | internal/server/debug_handler.go:395-407 | an admin has a group if and only if some registry row is theirs |
| ContractHeads.GroupByAdmin | internal/server/debug_handler.go:395-413 | admins in order of first appearance, with their first row's port and their own rows in row order |
| ContractHeads.RowsOfAt | internal/server/debug_handler.go:402-413 | each row is in its admin's group at the position given by the admin's rows before it |
| ContractHeads.FirstPortIs | internal/server/debug_handler.go:405-410 | a group's port is that of the admin's first row |
| ContractHeads.AppearsInOrder | internal/server/debug_handler.go:395-411 | an admin whose first row comes after another admin's row is listed after that admin |
| FetchPool.BoundedParallelism | internal/server/debug_handler.go:420-431 | for every schedule at most five fetches are in progress |
| FetchPool.AfterWaitSequential | internal/server/debug_handler.go:420-432 | whatever the nodes answer at the moment of each fetch, after Wait the result is that of filling the contracts one after the other with those answers, each fetched exactly once |
| FetchPool.SomeSequentialFilling | internal/server/debug_handler.go:420-432 | every schedule is such a filling for some answers |
| FetchPool.NeverStuck | internal/server/debug_handler.go:420-432 | before Wait returns some goroutine can always take a step |
| FetchPool.WaitReturnsAfter | internal/server/debug_handler.go:420-432 | every schedule ends, and Wait returns after exactly four steps per contract |
| IntervalOverrides.SplitMeaning | internal/config/config.go:121 | splitting cuts at every comma and loses nothing |
| IntervalOverrides.EntryMeaning | internal/config/config.go:122-137 | an entry is skipped exactly when blank, and stored as exactly what it denotes, by an independent definition |
| IntervalOverrides.SplitsAtIs | internal/config/config.go:125-133 | an entry is cut at its last '=' or ':', with a name before it and a number after it |
| IntervalOverrides.ParseIntervalOverrides | internal/config/config.go:119-142 | the loop computes the specification |
| IntervalOverrides.SucceedsIffAllMeaningful | internal/config/config.go:119-142 | success exactly when every non-blank entry denotes a setting |
| IntervalOverrides.LastMentionWins | internal/config/config.go:137 | the last entry for a name decides its value; other names are untouched |
| IntervalOverrides.RoundTrip | internal/config/config.go:119-142 | whatever blanks, empty entries, ':' separators and repetitions are written, parsing gives exactly the durations asked for |
| IntervalOverrides.PrintedMapParsesBack | internal/config/config.go:119-142 | every map of names to 0..9223372036854 milliseconds survives printing and parsing, in any order |
| IntervalOverrides.AcceptedButExactOnlyUpToMax | internal/config/config.go:133-137 | every 64-bit number is accepted; the stored duration is right exactly up to 9223372036854 |
| Startup.ApplyOverrides | cmd/server/main.go:59-63 | every parsed override is in force, clamped at zero, and no other admin's interval changes; a malformed setting changes nothing |
| Startup.Boot | cmd/server/main.go:56-63 | every admin's settings at the start: buffer size or 1000, the override clamped at zero or else the default interval; they are those the machine's configuration gives, whose job timeout is twice the HTTP timeout |
| Startup.OverrideSpacing | internal/config/config.go:119-142 | whatever the text of the setting, the last mention of a name gives its admin exactly the spacing asked for if and only if it is at most 9223372036854 milliseconds, and none if and only if the 64-bit product is not positive |
| Startup.DefaultSpacing | internal/config/config.go:97 | the same of the default interval; moderately negative defaults mean none, but the product can wrap to a positive one |
| Startup.LongIntervalDisablesSpacing | internal/queue/manager.go:108-113 | one millisecond more than the maximum and every job of that admin starts at once |

## Left out

- HTTP and JSON handling, routing, middleware, role checks and the shaping of responses beyond status codes.
- The Rubix client, cryptography, bcrypt, JWT and the database driver; see the assumptions.
- Crash, restart and shutdown: queues are in memory and every theorem is about runs of one process.
- The other contract operations (deploy, add admin, mirror writes of the admin registry), migrations and the contracts themselves.
- The list handlers of the v1 aliases, handleV1UserPayouts among them: they copy ledger rows into responses.
- parseSince, parseLimit and the other query-parameter helpers: single-branch facts.
- Ledger.Store.CreateActivity: an activity's description, transaction id and creation time are not stored; no sum reads them.
- Sorting and LIMIT of the history query: the builder's conditions and placeholders are covered, the ordering of its rows is not.
- QueueManager.Manager.GetOrCreate: sequential; the interleavings of its statements are covered by DoubleChecked.
- QueueManager.Manager.Work: runs until the channel is empty, where the source's loop then blocks; what arrives meanwhile is covered by PayoutQueue.
- ContractHeads.GroupByAdmin: the records are heap objects, but the concurrent filling is modelled on values in FetchPool, so aliasing between two records is not.
- Diagnostics.FailureGroupsPartition: NULL error details are taken as the empty text.
- PayoutService.Server.Persist: the error text stored for a refused request is the sentinel's, without the admin and capacity the source appends to it.
- FailureReason.SameReasonUpToIds: characters are code points; no collation or normalisation.
