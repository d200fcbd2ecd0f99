# Verification of the chess-explainer queue

A Dafny model of chess-explainer's durable lease queue and of what surrounds it: the
worker loop, the Stockfish watchdog, the HTTP body reader and payload, and the FEN
validator. `dafny verify dfyconfig.toml` checks everything.

## How the model is organised

| file | models |
|---|---|
| `Schema.dfy` | one row of `tasks` and the ten CHECK predicates |
| `Tasks.dfy` | the queue operations: their effect on a row, and the operations themselves as methods that assign row fields in place |
| `AtomicQueue.dfy` | the queue with every transaction as one step; the row, token and time invariants |
| `Fencing.dfy`, `Progress.dfy`, `ClaimOrder.dfy`, `AttemptLimit.dfy` | properties of whole runs of that queue |
| `LockedQueue.dfy` | the queue as the database runs it: select-and-lock, flush, commit, in any interleaving, with crashes; its refinement of the atomic queue |
| `LockedRuns.dfy`, `LockedProgress.dfy` | what the refinement and the locks give interleaved runs: safety and order; how much they write and that they can always finish |
| `Interleavings.dfy` | interleavings that can always happen: submissions beside open transactions, overlapping claims |
| `Worker.dfy` | `process_once` and `run_forever` over the table, with any database call failing before or after it took effect |
| `Watchdog.dfy` | the two threads of `evaluate_fen`, with their shared dictionaries and clock |
| `LeaseBudget.dfy` | watchdog, worker lease and queue together |
| `Api.dfy` | the bounded body reader, submission, and the polled payload |
| `Fen.dfy` | placement, numerals, fields and normalization |

The central argument: `LockedQueue.Refinement` shows that any interleaving of locking
transactions is a run of the atomic queue through the same committed states; `Fencing`,
`Progress`, `ClaimOrder` and `AttemptLimit` prove properties of all runs of the atomic
queue; `LockedRuns`, `LockedProgress`, `LeaseBudget` and `Api` state them of interleaved
runs. `Worker.CallIsTransaction` ties the worker's calls to those transactions.

## Assumptions

- Instants and durations are integers in microseconds. A transaction takes one clock
  reading, at the instant its statement selects and locks its rows (PostgreSQL branch).
- Fresh UUIDs are fresh: a claim's token has not been generated before, a submission's id
  is not in use.
- Sessions may present any token for any row at any time; crashes may happen at any point.
- In `LeaseBudget`, the database clock and the worker's monotonic clock run at one rate.
- In `Watchdog`, the calling thread leaves each wait at most `overrun` after it could.

## Where the code and its stated intent differ

- **The hard cap is not a cap.** The docstring of `evaluate_fen` counts shutdown within
  the hard timeout; the code can return up to 0.75 s after it (quit grace plus two process
  graces). `Watchdog.WorstCaseHappens` is such a run, `Watchdog.ReturnsInTime` the bound.
- **The startup check does not secure the lease.** It only asks that the worker's own hard
  timeout be shorter than its lease, so a punctual worker can still find its lease expired
  (`LeaseBudget.StartupDoesNotSuffice`); and attempts run under the timeout stored with the
  row, which came from the API process, so no accepted settings secure every row
  (`LeaseBudget.StartupNeedsSlack`). The exact condition is `LeaseBudget.BudgetIsExact`;
  with the shipped defaults 19.25 s are left over.
- **The attempt limit must be at most two.** With any larger `max_attempts`, recovery
  requeues a row whose next claim violates `ck_tasks_attempts`; that row then stays queued
  for ever and blocks in-order claims (`AttemptLimit.SafeExactlyUpToTwo`,
  `AttemptLimit.PoisonedForever`). `run_forever` is safe because startup insists on two;
  calling `process_once` directly skips that check.
- **One of value and error.** A BaseException in the attempt thread is caught by no
  handler and leaves `output` with neither, which the caller reports as a missing score
  (`Watchdog.EscapedExceptionReadsAsMissingScore` is such a run, the condition is in
  `Watchdog.ThreadLeavesOneAnswer`).
- **One board, several spellings.** The placement check accepts adjacent digits such as
  `44` (`Fen.EmptyRankHasTwoSpellings`); `Fen.CanonicalExactlyWhenMerged` says exactly
  which texts are canonical.

## Model

| member | source | states |
|---|---|---|
| Schema.ChecksAreShapes | app/models.py:58-99 | the ten CHECKs together admit exactly one shape of row for each status |
| Tasks.Task.ClearAttempt | app/tasks.py:160-169 | clearing drops lease, results, errors, engine version and finish time and nothing else |
| Tasks.TaskTable.CreateTask | app/tasks.py:35-58 | a new row is queued with no attempts; an id in use is refused and changes nothing |
| Tasks.TaskTable.ClaimOne | app/tasks.py:65-119 | claims exactly the unlocked queued row with the least created_at, then the least id, or nothing if there is none; non-positive lease is a ValueError; a row without attempts left is an IntegrityError and is rolled back |
| Tasks.TaskTable.ClaimRow | app/tasks.py:97-118 | the in-place assignments make the claimed row; the flush is admitted exactly below two attempts |
| Tasks.TaskTable.RecoverExpired | app/tasks.py:122-157 | the loop applies requeue-or-fail, with the given limit, code and message, to exactly the unlocked expired running rows and returns their number |
| Tasks.TaskTable.CompleteTask | app/tasks.py:181-218 | True exactly when the guard holds, then only that row is completed; malformed results are ValueErrors |
| Tasks.TaskTable.FailOrRetry | app/tasks.py:221-257 | stale exactly when the guard fails; otherwise requeues below the limit and fails at it, truncating code and message |
| Tasks.CompletingChecks | app/tasks.py:193-198 | the results complete_task accepts are exactly those the CHECKs admit on the completed row |
| Tasks.OldestExists | app/tasks.py:86-98 | ORDER BY created_at, id LIMIT 1 has an answer whenever a queued row is unlocked |
| Tasks.OldestIsUnique | app/tasks.py:86-98 | and only one |
| Tasks.RecoveryIsExhaustive | app/tasks.py:135-157 | after a pass no unlocked row is expired at that reading, a second pass changes nothing, locked rows are untouched |
| AtomicQueue.EffectKeepsRowInv | app/models.py:58-99 | every operation that selects a row keeps all ten CHECKs, the time order, the token/attempt match and the answer fields |
| AtomicQueue.InvHolds | app/models.py:58-99 | every state of every run satisfies the ten CHECKs, queued rows have an attempt left, history length equals attempts, a running row carries its last token, issued tokens are pairwise distinct, and times are coherent |
| AttemptLimit.SafeExactlyUpToTwo | app/worker.py:131 | over all runs no operation is rejected by a CHECK if and only if max_attempts is at most two |
| AttemptLimit.PoisoningRun | app/tasks.py:147-149 | a run, for any larger limit, that leaves a queued row with two attempts used |
| AttemptLimit.PoisonedForever | app/tasks.py:86-99 | a queued row without attempts left never changes again and, while oldest, stops in-order claiming |
| Fencing.TasksPersist | app/tasks.py:49-58 | a committed row stays for ever with its id, FEN, settings and creation time |
| Fencing.Conservation | app/models.py:21-25 | queued + running + completed + failed = rows = committed submissions, in every state |
| Fencing.TransitionsAreLegal | app/tasks.py:98-117 | which status changes can happen, what they stamp and what they keep; requeued rows are blank and keep start and attempts |
| Fencing.TerminalIsFinal | app/tasks.py:172-178 | a terminal row never changes and no token passes its guard |
| Fencing.Fenced | app/tasks.py:201-218 | a row becomes terminal at most once, only under its most recent token: by the holder inside the lease, or by recovery after it; and it shows what that call was given |
| Fencing.SnapshotOrGone | app/tasks.py:97-100 | after a claim the row is what was handed out, or no longer carries the token |
| Fencing.GuardMeansSnapshot | app/tasks.py:172-178 | whenever the guard passes, the row is the claimed snapshot |
| Fencing.OneValidClaim | app/tasks.py:172-178 | at most one claim can pass the guard of a row |
| Fencing.TokensIssuedOnce | app/tasks.py:97 | no two committed claims share a token |
| Fencing.HeldOrRecoverable | app/tasks.py:137-143 | at each reading a running row is held by its last token or recoverable, exactly one of the two |
| Fencing.LeaseHeld | app/tasks.py:105-107 | until the expiry instant only a call presenting the token changes a claimed row |
| Progress.BoundedTransitions | app/tasks.py:245-255 | a row makes at most 2 * MAX_ATTEMPTS transitions, each using up some of its measure |
| Progress.BoundedWrites | app/tasks.py:98-117 | rows written in any stretch of a run are at most the work open at its start plus 2 * MAX_ATTEMPTS for each submission |
| Progress.PollDecreases | app/worker.py:310-351 | a poll never adds work and removes some when it finds anything, with live leases, locked rows and other sessions acting between its transactions |
| Progress.IdlePoll | app/worker.py:310-320 | a poll finds nothing exactly when each open row is running under a live lease or locked elsewhere |
| Progress.PollsDrain | app/worker.py:310-351 | as many polls that find something as there was work leave every row terminal, whatever the outcomes and other sessions |
| Progress.FourPollsPerTaskDrain | app/tasks.py:21 | from every reachable state four unhindered polls a row suffice, any number of hindered ones between them |
| Progress.PollPossible | app/tasks.py:85-97 | from every state that satisfies the invariant an unhindered poll can be reached and made |
| ClaimOrder.NotOvertaken | app/tasks.py:86-98 | with undisturbed claims a queued row, new or requeued, is claimed before any younger one |
| ClaimOrder.FirstClaimsInCreationOrder | app/tasks.py:86-98 | with undisturbed claims and increasing creation keys, first claims follow creation order |
| LockedQueue.InvHolds | app/tasks.py:92-93 | in every interleaving, selected rows stay committed unchanged under their lock, locks are disjoint, open claims have distinct unused tokens |
| LockedQueue.ClaimsFirstInLine | app/tasks.py:86-94 | a claim locks exactly the unlocked queued row with the least created_at, then the least id |
| LockedQueue.LocksExclude | app/tasks.py:92-93 | no row is locked by two sessions; a selected row is still what was selected |
| LockedQueue.EndReleasesLocks | app/tasks.py:85 | commit, rollback and crash release exactly the session's locks; a crash leaves no write |
| LockedQueue.Simulates | app/tasks.py:136-157 | one step of the locked queue is one step, or none, of the atomic queue |
| LockedQueue.Refinement | app/tasks.py:85-119 | every interleaved run is a run of the atomic queue through the same committed states |
| LockedRuns.RowsValid | app/models.py:58-99 | the row invariant holds of every committed row in interleaved runs |
| LockedRuns.OpenTransactionsCanFinish | app/tasks.py:117 | no flush is rejected, so every open transaction can commit; it can also crash at any point |
| LockedRuns.AcknowledgedIsDurable | app/api.py:193-220 | an acknowledged id was inserted and committed by one transaction, and its row stays for ever with the FEN and settings given to that insertion |
| LockedRuns.LateWorkersAreStale | app/tasks.py:240-244 | for a terminal row every persist call selects nothing and does not wait |
| LockedRuns.StaleIsTruthful | app/tasks.py:240-244 | a persist call selects nothing exactly when its guard fails on the committed row |
| LockedRuns.ExclusiveLease | app/tasks.py:86-100 | a token passing the guard was issued by exactly one commit, for that row, and the row is what it wrote |
| LockedRuns.OvertakenOnlyWhenLocked | app/tasks.py:86-98 | under concurrency an older queued row is passed over only while locked |
| LockedRuns.UndisturbedClaimServesOldest | app/tasks.py:85-119 | a claim selected while nothing is locked and not overlapped by a commit takes the oldest queued row of the atomic queue |
| LockedRuns.FirstComeFirstServed | app/tasks.py:86-98 | an interleaved run whose claims are all undisturbed serves in order: no younger row is claimed before an older queued one |
| LockedRuns.AloneWritesChosen | app/tasks.py:85-119 | a transaction without interference writes exactly the rows it selected |
| LockedRuns.RecoveryAloneIsOnePass | app/tasks.py:136-157 | a recovery transaction alone is the pointwise pass, and an immediate second one finds nothing |
| LockedRuns.HolderIsNeverStale | app/tasks.py:201-218 | until the lease expires the first persist call with a claim's token neither waits nor is stale |
| LockedProgress.BoundedTransitions | app/tasks.py:245-255 | in every interleaving a row changes at most 2 * MAX_ATTEMPTS times |
| LockedProgress.BoundedCommits | app/tasks.py:98-117 | a run commits at most 2 * MAX_ATTEMPTS working transactions per inserted task, and after any state no more than the work open in it plus that |
| LockedProgress.NothingToDo | app/tasks.py:86-143 | recovery and claim both select nothing exactly when each open row is locked or running under a live lease |
| LockedProgress.EverythingCanFinish | app/worker.py:310-351 | from every reachable state, open transactions and locks included, some continuation without insertions ends with none open and every row terminal |
| Interleavings.SubmissionCommits | app/api.py:193-220 | at any point of any run an idle session can insert and commit a fresh id, whatever else is open; it is acknowledged exactly when the caller learns of the commit |
| Interleavings.ClaimsOverlap | app/tasks.py:92-93 | while one session holds the first row in line another claims the next and commits first, and both rows end up claimed |
| Worker.StartupIsSafe | app/worker.py:120-135 | with accepted settings, on a table whose queued rows have an attempt left, each call of the loop raises only through a fault, has arguments the queue accepts and keeps the table so; and the attempt limit is a safe one |
| Worker.NothingRefused | app/worker.py:120-135 | so over a whole log of calls: no ValueError and no CHECK violation, save for an exception carrying an empty code |
| Worker.Worker.Recover | app/worker.py:261-268 | recovery with the configured limit: lapsed unlocked rows are requeued or, with their attempts used up, failed with the LEASE_EXPIRED code and its message; nothing else changes; logged with its outcome |
| Worker.Worker.Claim | app/worker.py:270-276 | a claim with the configured lease, the fresh token and the reading given; it raises exactly on a fault, a refused lease or a rejected write; a lost reply hands nothing over though the row may be claimed |
| Worker.Worker.PersistSuccess | app/worker.py:278-290 | the result is persisted under the claim's id and token; stale results are no error |
| Worker.Worker.PersistFailure | app/worker.py:292-308 | failure is persisted under the claim's id and token, as a retry below two attempts |
| Worker.Worker.ProcessOnce | app/worker.py:310-351 | the calls of a poll with their limit, lease, token, readings and faults; it raises when a call did, worked when it persisted, is idle when nothing was claimed; the flag is set by a persist call that raised or kept by a probe that did; the table is the replay of the logged calls |
| Worker.Worker.RunForever | app/worker.py:364-378 | it starts exactly when 0 < search <= hard timeout < lease, one thread, hash, skill, interval, two attempts and the engine are as required, and then the settings pass the engine's own check; otherwise nothing is touched; the log is that of successive polls, exceptions swallowed, and if queued rows had an attempt left no call is refused or rejected |
| Worker.WorkIsGated | app/worker.py:310-351 | every claim directly follows a successful recovery, every persist call its own claim, recovery follows every persist call, and two recoveries succeed between a persistence error, also one before these polls, and the next claim |
| Worker.CallIsTransaction | app/worker.py:247-252 | from any state of any interleaved run, a worker's call that reaches the database is a continuation of the run by one session that leaves the table as logged |
| Worker.PublishedShowsEvaluation | app/worker.py:278-308 | the published row column by column: score, mate and engine version as evaluated; requeued below two attempts; else failed with the code, cut to 64, and the client text of that code |
| Worker.HealthyAttemptPublishes | app/worker.py:317-351 | when the persist call reaches the database inside the lease, the claimed row shows exactly that evaluation and no other row changes |
| Worker.RetryChoiceAgrees | app/worker.py:296-308 | in interleaved runs, whenever the guard passes, the worker's attempts < 2 choice is the one the database makes |
| Watchdog.ThreadLeavesOneAnswer | app/stockfish.py:228-254 | an ended thread leaves exactly one of value and error, which is what the caller gets, or a BaseException escaped and the score is missing; any engine it opened is closed |
| Watchdog.EscapedExceptionReadsAsMissingScore | app/stockfish.py:247-254 | a run in which a BaseException leaves the thread and the caller reports a missing score |
| Watchdog.ThreadDecidesOnce | app/stockfish.py:239-252 | exactly one step of the thread decides the attempt, a found score, a deadline check at or past the deadline, or an exception, and its verdict is what the thread leaves |
| Watchdog.OutcomeIsTheVerdict | app/stockfish.py:277-285 | every answer is that verdict, or EngineTimeout because the thread was alive when looked at |
| Watchdog.EveryVerdictIsDelivered | app/stockfish.py:228-254 | a score found or an exception raised at any instant before the deadline, while opening, configuring or searching, or a passed deadline, is returned at that instant in some run |
| Watchdog.AnswerIsSettled | app/stockfish.py:277-285 | dead thread: its published answer; live thread: EngineTimeout and engine closed, whatever is written later |
| Watchdog.ScoresComeFromTheEngine | app/stockfish.py:246 | a returned score was reported by the engine |
| Watchdog.ReturnsInTime | app/stockfish.py:273-280 | the caller is back by max(H, 0.01) + 0.75 s plus overruns |
| Watchdog.WorstCaseHappens | app/stockfish.py:204-225 | and some run takes all of it |
| Watchdog.ReturnsSooner | app/stockfish.py:202-205 | no wait for the engine when the thread has ended, one grace when the engine quits in time |
| Watchdog.NeverGivesUpEarly | app/stockfish.py:276-280 | the caller gives up on a living thread only once the hard timeout has passed, on the engine or a process only after the whole grace |
| Watchdog.BothTransportsAreTried | app/stockfish.py:206-222 | an engine that ignores quit has both transports looked at before the caller returns |
| Watchdog.EveryClosingHappens | app/stockfish.py:202-222 | closing takes nothing if the engine quits, else one grace and one more for each process that stays |
| LeaseBudget.BudgetIsExact | app/worker.py:125-126 | every attempt is over before the lease if and only if the worst case plus delays is below it |
| LeaseBudget.AttemptIsNeverStale | app/tasks.py:177 | within the budget, the persist call of an interleaved run finds its row as claimed, unlocked and unexpired |
| LeaseBudget.PunctualPollPublishes | app/worker.py:324-328 | within the row's budget and the worker's configured lease, a poll leaves the row showing the outcome of evaluate_fen |
| LeaseBudget.StartupNeedsSlack | app/worker.py:125-126 | accepted settings secure all rows with stored timeouts up to a bound exactly when the lease exceeds the bound, at least 0.01 s, by more than 0.75 s and the delays; they never secure every row |
| LeaseBudget.StartedWorkerOverrunsByClosing | app/worker.py:125-126 | on rows stored with a started worker's own timeout an attempt ends less than the closing time, or 0.01 s more, after the lease |
| LeaseBudget.StartupDoesNotSuffice | app/worker.py:125-126 | settings that start up and can miss the lease even on rows stored with the same timeout |
| LeaseBudget.DefaultsLeaveSlack | app/config.py:34-37 | with the default 10 s and 30 s the database may take any time below 19.25 s |
| Api.ReadBody | app/api.py:57-96 | the loop's outcome means what the messages say, on any message sequence; stored bytes never exceed the limit |
| Api.ChunkingIsIrrelevant | app/api.py:74-98 | for every chunking the application runs on exactly the body if it fits, else 413 |
| Api.Replay.ReplayOnce | app/api.py:99-106 | the body once, then disconnect |
| Api.Replay.ReceiveMany | app/api.py:99-106 | any number of receives see the body once |
| Api.ReplayReadsBack | app/api.py:98-106 | reading the replay gives back the body that was read |
| Api.BuildPayload | app/api.py:166-189 | for a row satisfying the CHECKs: exactly one of evaluation and mate iff completed, an error iff failed, the evaluation exactly the centipawns / 100, and, with errors on failed rows only, the payload decodes to the row's answer columns |
| Api.PayloadShape | app/api.py:166-189 | the same for every committed row of every interleaved run |
| Api.PolledResultRoundTrips | app/api.py:175-183 | the persisted score or mate, and no other, decodes from every later payload |
| Api.PolledErrorRoundTrips | app/api.py:184-188 | the code and message that failed a row are what every later payload shows |
| Api.PolledLeaseExpiry | app/tasks.py:126-127 | a task given up by a worker's recovery shows the LEASE_EXPIRED code and message in every later payload |
| Api.TerminalPayloadIsStable | app/api.py:166-189 | after a terminal payload every later one is the same |
| Api.SubmitTask | app/api.py:192-220 | accepted exactly when insert and commit succeeded; a durable commit leaves the new row even when the answer is 503; existing rows are never touched |
| Fen.ValidatePiecePlacement | app/fen.py:27-42 | the loops accept exactly the texts that depict 8 ranks of 8 squares |
| Fen.PieceLetters | app/fen.py:34-36 | the piece letters are the twelve of the standard |
| Fen.ExpansionIsDepicted | app/fen.py:34-40 | a rank text depicts exactly its expansion |
| Fen.SplitThenJoin | app/fen.py:28 | joining the split gives the text back, and no part holds the separator |
| Fen.JoinThenSplit | app/fen.py:28 | splitting a join of separator-free parts gives the parts back |
| Fen.BoardIsUnique | app/fen.py:27-42 | a text depicts at most one board |
| Fen.RenderedIsDepicted | app/fen.py:32-42 | every rank has a canonical text that depicts it |
| Fen.CanonicalExactlyWhenMerged | app/fen.py:34-40 | rendering gives an accepted rank text back exactly when no two digits are adjacent |
| Fen.EmptyRankHasTwoSpellings | app/fen.py:34-40 | 44 and 8 depict the same rank and only 8 is canonical |
| Fen.PrintIsNumeral | app/fen.py:20 | every printed number is an accepted numeral that parses back |
| Fen.NumeralsAreFixedPoints | app/fen.py:20 | among digit strings the accepted numerals are the fixed points of parse-then-print |
| Fen.ValidateFields | app/fen.py:45-72 | six fields: depicted board, side, non-repeating castling letters, en-passant rank of the side to move, numerals, positive move number |
| Fen.DistinctLetters | app/fen.py:56 | comparing the set's size with the length says no letter repeats |
| Fen.JoinedWords | app/fen.py:112-116 | joining fields with spaces and splitting gives the fields back |
| Fen.SpacesListed | app/fen.py:92 | the characters split and strip treat as spaces |
| Fen.WordsAreTheSplit | app/fen.py:92 | str.split(): its result is the one way to read the text as words set off by spaces |
| Fen.StripKeepsWords | app/fen.py:88 | str.strip() removes spaces at both ends, nothing else, and keeps the words |
| Fen.NormalizeFen | app/fen.py:75-116 | succeeds exactly on valid input, at most 256 characters once stripped, that the library prints in six fields, and returns those with the client's en-passant field |

## Left out

- SQLAlchemy, asyncio, sessions and SQL text; the SQLite fallback, which is not meant for several workers.
- Column widths and integer ranges of the schema: a result or engine version too large for its column.
- Several clock readings in one transaction (transaction start against wall clock).
- Tasks.TaskTable.ClaimOne: the query is one atomic selection; re-evaluation of a locked row by the database is not modelled.
- Worker.Worker.ProcessOnce: other workers do not act between the calls of one poll here; each call is one transaction of LockedQueue (`Worker.CallIsTransaction`), where they do.
- Fairness of a scheduler: draining is stated of polls that are made and of continuations that exist.
- The worker's reflective adapters and alternative repository names, `coerce_config`, logging, signals and the pause between polls.
- A BaseException raised by the evaluator in the worker's own thread.
- Stockfish, python-chess and board legality: an evaluation is an arbitrary answer, and `board.fen` an arbitrary text.
- `_terminal_result`, `_is_bound` and `_normalise_score`: facts about single branches. The watchdog machine starts after them and after the settings check of `_settings`.
- The cleanup thread inside `_close_engine`, beyond its finishing in time or not.
- FastAPI routing, pydantic models, response headers, `Content-Length` parsing, and messages after the one that ends the body.
- Environment settings, Alembic migrations, Docker and lock files.
