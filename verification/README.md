# A verified model of the gateway's stateful core

This project models the parts of the WhatsApp gateway whose correctness depends on how several
operations work together over time, and proves what those parts promise for every run and every
input.

| file | models |
|---|---|
| `Circuit.dfy` | the per-URL webhook circuit breaker as atomic steps, and whole runs of them |
| `Suspension.dfy`, `Lockout.dfy` | the deliveries an open circuit lets through are far apart, and there is always a next one |
| `Ladder.dfy`, `Answers.dfy` | when a circuit opens, how it climbs the cooldown ladder, and what it answers, told by the calls of the run alone |
| `Probes.dfy` | which delivery the probe of an open circuit is, and how old the others are |
| `Retry.dfy` | the back-off between delivery attempts, and how long a delivery run can last |
| `DeadLetters.dfy` | the bounded dead-letter ring with its full history |
| `Webhooks.dfy` | the shared state (`AppState`) updated in place: fan-out, delivery, dead letters, replay |
| `Deliveries.dfy` | broadcasts, deliveries in flight, replays, circuits and dead-letter rings as one machine of interleaved locked calls |
| `Tracing.dfy` | which parcel and which dead letter is where in that machine, one by one |
| `ProbeTiming.dfy`, `ProbeRuns.dfy` | what the machine guarantees when runs report as they end, and the runs that show where that stops |
| `ReplayRun.dfy` | the run in which putting a replayed entry back loses another |
| `RecentIds.dfy`, `LogoutHistory.dfy` | the message dedup window and the rolling logout history |
| `Timestamps.dfy` | the UTC text that SQLite and MySQL compare instead of times |
| `Scheduled.dfy` | the scheduled-send table and N workers that claim rows from stale snapshots |
| `DueRows.dfy` | which rows a tick reads, told in times, and what becomes of them when the worker is left alone |
| `BlastTables.dfy`, `BlastDrain.dfy` | the bulk-send tables, and one tick of the worker changing them in place |
| `BlastWorker.dfy` | the same worker as a protocol, with deaths and API calls between any two statements |
| `BlastCalls.dfy`, `BlastCost.dfy` | what the API calls ask of that worker (send times, cancels, duplicates, retries), and how many messages a recipient can cost |
| `BlastProgress.dfy`, `BlastReach.dfy`, `BlastOutcome.dfy` | what that worker reaches when left alone, which recipients can still go out, and how jobs end |
| `Base64.dfy`, `Der.dfy`, `Pem.dfy` | the key codec |
| `CappedRead.dfy`, `TagAttrs.dfy`, `MetaTags.dfy`, `FirstUrl.dfy` | the scanners behind link previews |
| `LikePattern.dfy`, `Placeholders.dfy` | query text: LIKE escaping and placeholder numbering |
| `Dispatch.dfy`, `Text.dfy`, `Wrappers.dfy`, `Arithmetic.dfy` | what a dispatch answers; Rust's `str::find`, `char::is_whitespace`, `Option`; products and quotients |

Where the source changes state in place, a class holds its fields and each method is proved equal to
a function of the old state; the lemmas are about those functions over whole runs. A method that runs
under one lock, and one SQL statement, is one atomic step. Clock readings, HTTP replies, dispatch
outcomes, body chunks and parameters are inputs, so every theorem holds for all of them.

In the circuit model a clock is read before the entry's lock is taken, as in the source, so readings
may reach the table out of order; `ClockLag(calls, lag)` bounds by how much, and `lag = 0` is the
ordered case.

## Where the code and its documentation differ

The model follows the code. Each of these is proved, with the exact condition where there is one.

- A blast job that is found `running` is resumed without resetting its rows
  (`src/api/shared/blast/handlers.rs:471-473`), although `src/db/blast.rs:414-416` says rows caught
  in `sending` are put back. After a crash such a recipient is never dispatched, and the job still
  closes as `completed`: `BlastOutcome.CrashStrandsRecipient`, `BlastWorker.StrandedForGood`. A
  resumed job is settled exactly when none of its rows was `sending`: `BlastProgress.ResumedJobSettles`.
- `finish_job` has no status guard, so a cancel that was answered with success is overwritten exactly
  when the worker is already on its way to it: `BlastOutcome.CancelSticksExactlyWhen`, with the run
  `BlastOutcome.CancelIsLost`. The theorem also covers a job whose stored body does not parse; the API
  only stores bodies that it has parsed, so such a row can only come from outside it.
- `completed_with_failures` is documented as "at least one recipient in the DLQ"
  (`src/api/shared/blast/handlers.rs:35-38`), but the status follows a counter that a crash can leave
  behind the rows and that a retry never takes back. It tells the truth exactly when losing all
  updates of the counter and requeueing all dead letters go together:
  `BlastOutcome.ClosingStatusAgreesExactlyWhen`, with the two runs `BlastOutcome.LostUpdateHidesFailure`
  and `BlastOutcome.RetriedSuccessStillFails`.
- A blast job can be claimed before its recipients are inserted; it then closes empty
  (`BlastOutcome.EarlyClaimCompletes`). A pending recipient that the worker has not read can still go out
  exactly when `BlastReach.GoesOutExactlyWhen` says so.
- With six or more attempts, a delivery admitted before a circuit opened can report while the first probe
  is out and climb the cooldown ladder, where `src/state.rs:996-999` has only the probe's own failure do
  so; with five or fewer it cannot: `ProbeRuns.LadderLimit`.
- An entry that a replay puts back evicts another when the ring has filled up since it was taken:
  `DeadLetters.PutBackKeepsAllExactlyWhen`, `Deliveries.PutBackEvictsExactlyWhen`, and the run
  `ReplayRun.PutBackEvictsAnother`.
- A scheduled row whose worker crashed after claiming it stays `sending` for good. That is so exactly
  for the rows no worker holds: `Scheduled.CrashOrphansRow`, `Scheduled.StuckExactlyWhenUnheld`.
- The text test `send_at <= now` is exact only up to the year 9999; a later row is due at once:
  `Timestamps.DueTestIsExact`, `Timestamps.Year10000IsDueNow`.
- The dead-letter field documented as the number of attempts made
  (`src/api/shared/webhooks/models.rs:299-300`) holds the configured maximum, also after an early
  stop on a 4xx reply: `Webhooks.RecordedAttempts`, `Webhooks.OneAttemptRecordedAsThree`.
- The back-off exponent is cast to 32 bits, so the delays start over after 2^32 + 3 attempts:
  `Retry.SleepClosedForm`.
- Pruning the logout history changes the answer exactly when three logouts are recent and fewer than
  three of them were never a whole window old at an earlier reading: `LogoutHistory.AnswerExactlyWhen`,
  `LogoutHistory.ClockStepBackLosesLogouts`.
- Placeholder numbering changes what a statement binds when a digit stands right after a `?` or a
  `$`: `Placeholders.RewritePreservesBinding`, `Placeholders.DigitAfterMark`.
- Only the first scheme in a text is looked at: one without a host hides every link after it:
  `FirstUrl.BareSchemeHidesLinks`.
- A body read stopped by the cap still fails when an error follows the chunk that filled it:
  `CappedRead.FailsExactlyWhen`, `CappedRead.FullThenBrokenFails`.

## Model

| member | source | states |
|---|---|---|
| Circuit.CooldownBounds | src/state.rs:685-692 | every cooldown is between 5 minutes and an hour, and at least the probe timeout from the second suspension on |
| Circuit.ReachableSlots | src/state.rs:635-664 | in every run, whatever the clock readings: open exactly at 25 failures, closed means no trips and no probe, a probe never predates the cooldown end |
| Suspension.ProbesAreSpaced | src/state.rs:921-947 | while a circuit stays open, any two admitted deliveries are at least 600 s apart (less the clock lag), whatever stragglers report |
| Suspension.SuspensionCost | src/state.rs:921-947 | T seconds of suspension admit at most T/gap + 1 deliveries, where gap is 600 s less the lag; each makes up to the configured number of requests |
| Lockout.NeverLockedOut | src/state.rs:685-692 | an attempt an hour after the last failure report and a probe timeout after the last admission is admitted |
| Ladder.OpensAtThreshold | src/state.rs:976-1031 | in every run, with no assumption on any state: the circuit is open exactly when at least 25 failures were reported since the last reset (a success, a removal, or an operator's call after 25 failures), and its counter is their number up to 25 |
| Answers.AdmitsExactlyWhen | src/state.rs:928-947 | a delivery is let through exactly with fewer than 25 failures in a row, or once the last suspension's cooldown is over and the last delivery let through since is 600 s old |
| Answers.SuspendsExactlyWhen | src/state.rs:1001-1031 | a report suspends exactly as the 25th failure in a row, or later when a delivery was let through since the last suspension; the n-th suspension in a row lasts 300, 600, 1200, 2400, 3600, 3600, ... s |
| Answers.SnapshotTells | src/state.rs:949-966 | after any run the status page shows the failures in a row, the last error, the skips noted, and the rest of the cooldown that the last suspension announced |
| Ladder.LadderCountsReportsOnProbes | src/state.rs:1008-1021 | the rung of the cooldown ladder is the number of failure reports of this suspension that found a probe out, whoever made them |
| Probes.CurrentProbeIsOut | src/state.rs:939-945 | a probe is out exactly when an admission of the run is the current probe, and it was made at the recorded time |
| Probes.YoungReportIsProbes | src/state.rs:1001-1021 | a failure report that climbs the ladder, by a delivery admitted less than the shortest cooldown ago, is the current probe's |
| Lockout.EverySlotAccounted | src/state.rs:928-1031 | an open slot's cooldown end and probe time both come from an earlier failure report or admission of the same run |
| Retry.DelayLadder | src/state.rs:117-128 | the delays from the fourth attempt on are 60, 120, 240, 300, 300, ... and start over when the 32-bit exponent wraps |
| Retry.ShortRuns | src/state.rs:117-128 | runs of 1 to 6 attempts sleep 0, 5, 35, 95, 215 and 455 s |
| Retry.SleepClosedForm | src/state.rs:117-128 | a run of m >= 6 attempts sleeps 455 + 300(m - 6) s exactly when m is at most 2^32 + 3 |
| Retry.RunOutlivesProbe | src/state.rs:142-154 | the longest run of m attempts, each hitting the 10 s client timeout, ends within the probe timeout exactly when m is at most 6 |
| Retry.RunOutlivesCooldown | src/state.rs:117-128 | the longest run of m attempts ends within the shortest cooldown exactly when m is at most 5 |
| ProbeRuns.OverlapLimit | src/state.rs:921-947 | over all interleavings in which runs report as they end: two probes of one suspension are never in flight together exactly when runs make at most 6 attempts |
| ProbeRuns.TwoProbesOut | src/state.rs:939-945 | the run with 7 attempts in which a second probe goes out while the first is still trying |
| ProbeRuns.LadderLimit | src/state.rs:1003-1021 | over the same runs: only the current probe's own failure climbs the ladder exactly when runs make at most 5 attempts |
| ProbeRuns.StragglerClimbs | src/state.rs:1005-1021 | with 6 attempts there is a run in which a delivery admitted before the opening climbs it |
| DeadLetters.NothingIsLost | src/state.rs:1058-1090 | in every run the ring is in push order and never over capacity, each push has one fate, and only a push with `capacity` newer ones behind it is evicted |
| DeadLetters.PushesAddUp | src/state.rs:1058-1090 | pushes = present + taken + evicted + purged, and present is the ring's length |
| DeadLetters.TakenPlusRest | src/state.rs:1083-1090 | taking an entry leaves exactly the others |
| DeadLetters.PutBackKeepsAllExactlyWhen | src/api/shared/webhooks/handlers.rs:241-251 | with other dead letters pushed between the take and the put-back, nothing is lost exactly when all of them fit |
| Deliveries.RunsKeepInv | src/state.rs:1236-1421 | every interleaving of broadcasts, circuit calls, reports, dead letters, replays and operator calls keeps the ledger of every session |
| Deliveries.NothingIsLost | src/state.rs:1236-1421 | per session: matching events + replays = waiting + skipped + in flight + delivered + dead-lettered; dead-lettered + put back = present + taken + evicted + purged; taken = replayed + put back + held; which ones is in `Tracing.NoTargetIsLost` and `Tracing.NoLetterIsMixedUp` |
| Deliveries.EveryEventIsSomewhere | src/state.rs:1236-1421 | per session: matching events = waiting + skipped + in flight + delivered + present + held by a replay + evicted + purged; which one is where is in `Tracing` |
| Deliveries.EndsExactlyOnce | src/state.rs:1291-1421 | every delivery started is in flight or ended in exactly one success or one dead letter, and nothing else ends |
| Deliveries.PutBackEvictsExactlyWhen | src/api/shared/webhooks/handlers.rs:245-251 | in every run a put-back evicts an entry exactly when the ring is full by then |
| Tracing.NoTargetIsLost | src/state.rs:1236-1272 | as multisets of parcels and not only as numbers: matching events = waiting + started + skipped, in every run |
| Tracing.BroadcastMeans | src/state.rs:1236-1272 | a broadcast offers its payload to the URL and under the secret of every registered webhook that is enabled and filters for everything or for this event, and to nothing else |
| Tracing.AnswersDecide | src/state.rs:1250-1255 | in every run who was started or replayed was let through by the circuit call named, and who was skipped was turned away by it |
| Tracing.SkipsAreNoted | src/state.rs:1250-1253 | in every run each target turned away is counted as one skip of its URL, or is about to be |
| Tracing.NoLetterIsMixedUp | src/state.rs:1058-1090 | in every run each dead letter, by its number, was made once, and is taken exactly when one replay call holds that very entry or it was delivered again or put back, once |
| Tracing.LettersTellTheTruth | src/api/shared/webhooks/handlers.rs:237-276 | in every run a replay carries the url, event, payload and secret of the entry taken, a put-back pushes the entry taken, and a dead letter tells the parcel that failed, the attempts allowed and an error that was reported |
| Tracing.DeliveriesKeepTheirParcel | src/state.rs:1274-1421 | in every run a delivery in flight, and one that ended, was started once, by a call that let it through, with the parcel it carries to its end |
| Tracing.TakeMeans | src/state.rs:1083-1090 | a replay call that finds an entry takes the oldest one with its id, with its number; the ring before is the ring after and that entry |
| Tracing.RegistryMeans | src/state.rs:1039-1056 | what a webhook id stands for changes only by registering, removing, switching and purging, and switching forgets the circuit of its URL |
| ReplayRun.PutBackEvictsAnother | src/api/shared/webhooks/handlers.rs:241-251 | with room for one entry, the run in which a replay is turned away and its put-back evicts the entry written meanwhile |
| Webhooks.AttemptLoop | src/state.rs:1291-1371 | the loop stops at the first success or permanent rejection, or after the configured number of attempts, after the sleeps and replies up to there |
| Webhooks.RunIsUnique | src/state.rs:1291-1371 | the replies decide a run's outcome, number of attempts, time and last error |
| Webhooks.RunReportsInTime | src/state.rs:1291-1371 | with at most six attempts every run reports before its probe is given up |
| Webhooks.RecordedAttempts | src/state.rs:1392-1402 | the recorded number of attempts is the number made exactly when the run did not stop early on a rejection |
| Webhooks.DeliversExactlyWhen | src/state.rs:1330-1365 | a run delivers exactly when one of the replies it waits for is a 2xx and, with retrying on 4xx off, none before it is a 4xx other than 408 and 429; otherwise its error is the last reply's text |
| Webhooks.ElapsedMeans | src/state.rs:1299-1303 | a run lasts for its sleeps and its replies |
| Webhooks.OneAttemptRecordedAsThree | src/state.rs:1392-1402 | with retrying on 4xx off, a 401 on the first attempt is recorded as three attempts |
| Webhooks.FanoutPartitions | src/state.rs:1236-1272 | in one uninterrupted broadcast the enabled, matching webhooks are those started and those skipped; what becomes of them is in Deliveries |
| Webhooks.TargetsMeans | src/state.rs:1241-1248 | a webhook is a target, as often as it is listed, exactly when it is enabled and filters for everything or for this very event |
| Webhooks.FanoutFollowsAnswers | src/state.rs:1250-1270 | after any run a broadcast starts the targets let through and skips those turned away, in the order of its questions |
| Webhooks.ReplayExtendsRun | src/state.rs:1236-1272 | what one operation does to the circuits after a run is what the longer run does, so the run theorems apply to the class |
| Webhooks.AppState.WebhookCircuitAllows | src/state.rs:928-947 | the in-place check is one step of the circuit model and answers what that step answers |
| Webhooks.AppState.WebhookRecordSuccess | src/state.rs:976-991 | the in-place success report is one step, and says whether the URL was suspended |
| Webhooks.AppState.WebhookRecordFailure | src/state.rs:993-1031 | the in-place failure report is one step, and says for how long the URL is suspended now |
| Webhooks.AppState.WebhookNoteSkipped | src/state.rs:1033-1037 | the in-place skip count is one step |
| Webhooks.AppState.SetWebhookEnabled | src/state.rs:1039-1051 | a registered webhook gets the flag and its URL's circuit is forgotten; an unknown one changes nothing |
| Webhooks.AppState.ReenableAllOpenCircuits | src/state.rs:1092-1114 | exactly the open circuits are closed and returned, each once; every other slot is as it was |
| Webhooks.AppState.WebhookDlqPush | src/state.rs:1058-1072 | the entry is appended to its session's ring, the oldest dropped over capacity, other sessions untouched |
| Webhooks.AppState.WebhookDlqList | src/state.rs:1074-1081 | the ring, newest first |
| Webhooks.AppState.WebhookDlqTake | src/state.rs:1083-1090 | the first entry with the id is removed and returned; without one nothing changes |
| Webhooks.AppState.PurgeWebhooksForSession | src/state.rs:1053-1056 | the session's webhooks and dead letters are gone and nothing else |
| Webhooks.AppState.BroadcastToWebhooks | src/state.rs:1218-1272 | walking the session's registered webhooks in any order, the table after a broadcast is the fan-out of the old one over the eligible ones |
| Webhooks.AppState.DeliverWebhook | src/state.rs:1274-1421 | a run ends in exactly one success report, or one failure report and one dead letter |
| Webhooks.AppState.ReplayDlqEntry | src/api/shared/webhooks/handlers.rs:237-276 | take, question and put-back with other tasks' calls in between: the ring left in each case, the circuit's answer deciding which, and exactly when a put-back loses something |
| RecentIds.RecentMessageIds.FirstSighting | src/state.rs:272-286 | true exactly when the key is not among the last `capacity` accepted ones, with deque and set in step and within capacity |
| RecentIds.RepeatsAreFarApart | src/state.rs:247-286 | two accepts of one key have at least `capacity` others between them |
| RecentIds.TurnedAway | src/state.rs:247-286 | a key is turned away exactly when fewer than `capacity` keys were accepted after it was |
| RecentIds.AcceptsExactlyWhen | src/state.rs:272-286 | a sighting is accepted, again or for the first time, exactly when the key is not among the last `capacity` accepted ones |
| RecentIds.WindowSlides | src/state.rs:278-283 | dropping the oldest at capacity and appending is the window of the longer list |
| LogoutHistory.SessionState.RecordLogoutAndShouldPurge | src/state.rs:397-416 | true exactly when three recent logouts were never overtaken, which is the answer of the full log exactly when it has fewer than three recent ones or three of those |
| LogoutHistory.SessionState.ClearLogoutHistory | src/state.rs:404-406 | the log starts over |
| LogoutHistory.PruningExactlyWhen | src/state.rs:408-416 | as many logouts are kept as the full log has recent ones exactly when the clock never stood a window past a recent one |
| LogoutHistory.RecentMeans | src/state.rs:409-413 | a logout is recent, as often as it is logged, exactly when it is less than 600 s old |
| LogoutHistory.KeptAreStanding | src/state.rs:408-416 | the pruned history is the logouts that no later reading found a whole window old |
| LogoutHistory.AnswerExactlyWhen | src/state.rs:408-416 | the answer agrees with the full log exactly when fewer than three logouts are recent or three recent ones were never overtaken |
| LogoutHistory.OrderedPrunesNothing | src/state.rs:408-416 | with a clock that does not step back, pruning loses nothing |
| LogoutHistory.ClockStepBackLosesLogouts | src/state.rs:408-416 | a clock set back can hide the third logout |
| Timestamps.TextOrderIsTimeOrder | src/db/scheduled.rs:10-27 | for four-digit years the text sorts exactly as the times do, to the second |
| Timestamps.TextReadsBack | src/db/scheduled.rs:25-27 | the text of a four-digit year has 19 characters with `-`, `:` and a blank in their places, and its digits read back as the fields |
| Timestamps.DueTestIsExact | src/db/scheduled.rs:123-149 | the text test agrees with the clock exactly when the requested year is at most 9999 |
| Timestamps.Year10000IsDueNow | src/db/scheduled.rs:25-27 | a row parked until the year 10000 is due today |
| Timestamps.PadOrder | src/db/scheduled.rs:25-27 | zero-padded numbers of one width sort as the numbers and determine them |
| Timestamps.TextAtMostTransitive | src/db/scheduled.rs:123-149 | the database's text order is transitive |
| Timestamps.TextTotal | src/db/scheduled.rs:123-149 | the database's text order is total |
| Scheduled.ScheduledTable.Insert | src/db/scheduled.rs:48-105 | a new row is pending with its send time, which the text test reads to the second; a taken id is refused |
| Scheduled.ScheduledTable.DuePending | src/db/scheduled.rs:107-152 | the rows due by the text test, oldest first, the earliest `limit` of them, none twice; what that means in statuses and times is in `DueRows.DueBatchMeans` |
| DueRows.DueBatchMeans | src/db/scheduled.rs:107-152 | every row read is pending and none, up to the year 9999, has a time to come; a pending row whose time has come is read, or the tick is full of pending rows none of which is later |
| DueRows.DueRowIsRead | src/db/scheduled.rs:107-152 | a pending row whose time has come is read when fewer than `limit` pending rows are ahead of it |
| DueRows.SnapshotIsWorkedOff | src/api/shared/schedule/handlers.rs:252-305 | a worker left alone with any stale snapshot dispatches each row of it that is still pending once, records the answers, touches no other row, and ends with nothing in its hands |
| DueRows.DueRowGoesOut | src/api/shared/schedule/handlers.rs:252-305 | a tick left alone dispatches a due row with fewer than `limit` rows ahead of it once and records the answer, whatever else the query returned |
| DueRows.RowsAreAsAsked | src/db/scheduled.rs:326-366 | in every run a row is what its insert asked for, and only its own session cancels it |
| DueRows.CancelHolds | src/db/scheduled.rs:326-366 | a cancel of a pending row by its own session holds in every continuation and the row is never dispatched; one by another session changes nothing |
| Scheduled.ScheduledTable.Claim | src/db/scheduled.rs:154-193 | pending becomes sending and wins; any other row loses and stays as it was |
| Scheduled.ScheduledTable.MarkSent | src/db/scheduled.rs:195-233 | sets the row to sent with its message id, whatever its status was |
| Scheduled.ScheduledTable.MarkFailed | src/db/scheduled.rs:235-273 | sets the row to failed with its error, whatever its status was |
| Scheduled.ScheduledTable.CancelPending | src/db/scheduled.rs:326-366 | pending rows of the session become cancelled and win; others lose and stay |
| Scheduled.RunsKeepInv | src/api/shared/schedule/handlers.rs:252-305 | every interleaving of N workers, cancels, inserts, clock ticks and crashes keeps the ownership invariant |
| Scheduled.AtMostOnce | src/db/scheduled.rs:154-193 | a row is won at most once, by one claim or one cancel, dispatched at most once, never when cancelled or pending, and exactly once when settled |
| Scheduled.NeverEarly | src/db/scheduled.rs:107-152 | no row is dispatched before its `send_at`, for years up to 9999, though snapshots are stale |
| Scheduled.TerminalRowsStay | src/db/scheduled.rs:195-273 | sent, failed and cancelled rows never change again, though the settling updates have no status guard |
| Scheduled.SettledRowTellsOutcome | src/api/shared/schedule/handlers.rs:259-303 | what a settled row records is what its dispatch returned |
| Scheduled.OrphansStay | src/db/scheduled.rs:154-193 | a row left in sending by a crashed worker stays there in every continuation |
| Scheduled.CrashOrphansRow | src/api/shared/schedule/handlers.rs:252-260 | the run (store, read, claim, crash) that leaves a row in sending with nobody holding it |
| Scheduled.StuckExactlyWhenUnheld | src/db/scheduled.rs:154-273 | a row in sending stays so in every continuation exactly when no worker holds it |
| BlastTables.UpdateIsPoint | src/db/blast.rs:569-631 | with unique keys the update by (job, recipient) changes one row and nothing else |
| BlastTables.RemainingPoint | src/db/blast.rs:531-567 | changing one row changes the attempts left in the job by that row's share |
| BlastDrain.InsertAllCoversOnce | src/db/blast.rs:162-219 | after a bulk insert every listed recipient has exactly one row, and earlier rows are untouched |
| BlastDrain.BlastStore.InsertRecipients | src/db/blast.rs:162-219 | the statement-by-statement insert is the bulk insert |
| BlastDrain.BlastStore.AlreadySent | src/db/blast.rs:221-276 | the chunked lookup returns exactly the candidates this session has a sent row for, in any job |
| BlastDrain.BlastStore.MarkRecipient | src/db/blast.rs:569-631 | one update changes the one row of the key |
| BlastDrain.BlastStore.ProcessRecipient | src/api/shared/blast/handlers.rs:513-549 | one recipient ends sent, back in line, or dead-lettered at its limit, and the counters say so |
| BlastDrain.BlastStore.ProcessBatch | src/api/shared/blast/handlers.rs:513-551 | a batch read once is still current row by row, and uses up one attempt for each of its rows |
| BlastDrain.BlastStore.ProcessJob | src/api/shared/blast/handlers.rs:484-567 | for every answer sequence the drain terminates with the pending rows sent or dead-lettered at the limit, the other rows untouched, and the job closed by its counter |
| BlastDrain.DrainedIsSettled | src/api/shared/blast/handlers.rs:481-553 | a drained job has every row in a final status exactly when none was in sending before |
| BlastDrain.DispatchUsesAttempt | src/api/shared/blast/handlers.rs:513-549 | every dispatch uses up an attempt, which is why the drain ends |
| BlastProgress.RecipientAgrees | src/api/shared/blast/handlers.rs:513-549 | the statements of the protocol's worker from one recipient to the next leave the tables as `ProcessRecipient` does |
| BlastDrain.BlastStore.ResumeRunning | src/api/shared/blast/handlers.rs:467-473 | resuming a running job settles it exactly when no row was caught in sending, and leaves such rows as they are |
| BlastDrain.BlastStore.ClaimAndProcess | src/api/shared/blast/handlers.rs:474-477 | one pending job is claimed, its rows in sending put back, and everything settled; a lost claim changes nothing |
| BlastWorker.RunsKeepInv | src/api/shared/blast/handlers.rs:469-567 | every run of statements, deaths and API calls keeps the invariant, including that rows ahead in a batch are as they were read |
| BlastWorker.AttemptsAreBounded | src/db/blast.rs:503-567 | no row ever records more attempts than its job allows, a dead-lettered row has used them all, and no row is ever failed |
| BlastWorker.NoRowLostOrDuplicated | src/db/blast.rs:162-219 | in every run rows are only added, under new keys, and never renamed |
| BlastWorker.SentIsNeverSentAgain | src/db/blast.rs:454-529 | a recipient recorded sent is never dispatched again, through crashes, cancels, retries and stale batches |
| BlastWorker.CancelLatency | src/db/blast.rs:844-884 | a stopped job goes out to at most 50 more recipients |
| BlastWorker.StrandedForGood | src/db/blast.rs:414-453 | until the job is reopened, a row left in sending is never dispatched and never changes |
| BlastCalls.NothingGoesOutEarly | src/db/blast.rs:279-330 | in every run a job of which a row was dispatched, or that is past pending other than by a cancel, was ticked at a time not before its send time, for years up to 9999 |
| BlastCalls.TickMeans | src/api/shared/blast/handlers.rs:467-479 | an idle worker resumes a running job, and claims a pending one exactly when none is running and its send time has come |
| BlastCalls.OneJobAtATime | src/api/shared/blast/handlers.rs:467-479 | in every run at most one job is running, and none while the worker is about to claim one |
| BlastCalls.StatusMoves | src/db/blast.rs:804-962 | a job's status moves only by the worker's claim and closing, a cancel by its own session while pending or running, and a retry unless it is running |
| BlastCalls.JobsAreAsAsked | src/db/blast.rs:844-884 | in every run a job is what its create call asked for, and only its own session cancels it |
| BlastCalls.AddingMeans | src/db/blast.rs:162-219 | a new recipient gets a pending row, or a duplicate's row that never changes and is never dispatched in any continuation; one that has a row keeps it |
| BlastCalls.RetryGivesAllAttempts | src/db/blast.rs:886-922 | a retry gives each dead-lettered row of the job all its attempts again and no other row any |
| BlastCost.MessagesAreBounded | src/api/shared/blast/handlers.rs:481-549 | in every run a recipient is sent at most as many messages as its job allows attempts (at least one), as often again as the job was retried, and one for each death of the worker |
| BlastProgress.WorkShrinksBound | src/api/shared/blast/handlers.rs:469-567 | every statement of the worker lowers a bound made of the attempts left in its job |
| BlastProgress.BoundIsLinear | src/api/shared/blast/handlers.rs:469-567 | the bound is at most 8 for each attempt left, and 10 |
| BlastProgress.DrainEnds | src/api/shared/blast/handlers.rs:469-567 | left alone from any reachable state, the worker is idle within the bound, whatever the dispatches answer |
| BlastProgress.DrainSettles | src/api/shared/blast/handlers.rs:481-567 | left alone on a running job it closes it, and every row is settled exactly when none was in sending outside its hands |
| BlastProgress.ResumedJobSettles | src/api/shared/blast/handlers.rs:467-473 | a job found running is closed within 8 statements for each attempt left and 6, and settled exactly when none of its rows was in sending |
| BlastProgress.ClaimedJobSettles | src/api/shared/blast/handlers.rs:474-477 | a claimed job is closed and settled whatever its rows were; when a job is claimed is in `BlastCalls.TickMeans` |
| BlastReach.ReadExactlyWhen | src/db/blast.rs:454-502 | a pending row is read exactly when fewer than 50 pending rows of its job come before it |
| BlastReach.GoesOutExactlyWhen | src/api/shared/blast/handlers.rs:467-567 | a pending row the worker has not read can still go out without a reopening exactly when its body parses and its job is pending or running and not being closed (or the closer may die), or it is in the batch about to be read |
| BlastReach.LateRecipientsWait | src/api/shared/blast/handlers.rs:139-174 | a recipient added to a stopped job whose rows are not about to be read waits for a reopening |
| BlastOutcome.CancelSticksExactlyWhen | src/db/blast.rs:804-884 | a cancel is kept in every continuation exactly when the worker is not on its way to closing the job, by an empty batch or an unparseable body |
| BlastOutcome.CancelIsLost | src/db/blast.rs:804-884 | the run in which a cancel arrives after the last batch was found empty and the job is closed as completed |
| BlastOutcome.DlqLedger | src/db/blast.rs:550-567 | in every run: dead-lettered rows + requeued = marks, and counter + lost updates + the one under way = marks |
| BlastOutcome.ClosingStatusAgreesExactlyWhen | src/api/shared/blast/handlers.rs:555-567 | the closing status agrees with the rows exactly when more marks than lost updates and more marks than requeued rows go together |
| BlastOutcome.LostUpdateHidesFailure | src/api/shared/blast/handlers.rs:541-547 | the run in which a crash between mark and counter closes the job as completed with its recipient dead-lettered |
| BlastOutcome.RetriedSuccessStillFails | src/db/blast.rs:886-962 | the run in which a retry delivers everything and the job closes with failures |
| BlastOutcome.CounterIsForGood | src/api/shared/blast/handlers.rs:555-567 | once the dead-letter counter is positive every later close says completed with failures |
| BlastOutcome.CrashStrandsRecipient | src/api/shared/blast/handlers.rs:467-479 | the run in which a crash and a resume close the job with its recipient still in sending |
| BlastOutcome.EarlyClaimCompletes | src/api/shared/blast/handlers.rs:139-174 | the run in which a job is claimed and closed before its recipient is inserted |
| Base64.DecodeOfEncode | src/cloud/flows_crypto.rs:114-118 | decoding an encoding gives the bytes back (section 4 of RFC 4648) |
| Base64.EncodeOfDecode | src/cloud/flows_crypto.rs:114-118 | every text that decodes is the encoding of its bytes |
| Base64.EncodingChars | src/cloud/flows_crypto.rs:117-118 | an encoding uses only the alphabet and padding |
| Base64.GroupSpellsBits | src/cloud/flows_crypto.rs:117-118 | four characters of the RFC 4648 alphabet spell the 24 bits of three bytes, fewer bytes are filled up with zero bits and `=` |
| Der.DerTlv | src/cloud/flows_crypto.rs:88-93 | appending to a buffer yields the element that `TlvRoundTrip` reads back |
| Der.Pkcs1ToPkcs8 | src/cloud/flows_crypto.rs:95-103 | the writer yields the wrapper whose reading `UnwrapGivesKey` states |
| Der.LenRoundTrip | src/cloud/flows_crypto.rs:74-86 | length octets written anywhere are read back as the length and their number |
| Der.TlvRoundTrip | src/cloud/flows_crypto.rs:302-317 | an element written between any prefix and suffix is read back as tag, content and end |
| Der.LengthIsMinimal | src/cloud/flows_crypto.rs:74-86 | no field that reads as the same length has fewer octets (section 10.1 of X.690) |
| Der.LengthForms | src/cloud/flows_crypto.rs:74-86 | the octets for every length below 65536: one octet below 128, else their number and they, most significant first |
| Der.AlgorithmIsRsa | src/cloud/flows_crypto.rs:68-72 | the identifier reads as a SEQUENCE of 1.2.840.113549.1.1.1 and NULL (section 8.19 of X.690) |
| Der.UnwrapGivesKey | src/cloud/flows_crypto.rs:95-103 | the wrapper reads as version 0, the rsaEncryption identifier and an octet string with the key, ending where the whole ends (section 5 of RFC 5208) |
| Pem.PemEncode | src/cloud/flows_crypto.rs:117-126 | the chunk loop writes the marks around the base64 text cut into rows |
| Pem.PemRoundTrip | src/cloud/flows_crypto.rs:105-126 | a block is read back as its bytes under its own label, after any dash-free text and before any text |
| Pem.OnlyItsOwnLabel | src/cloud/flows_crypto.rs:105-126 | of two labels without dashes, a block written under one is read under the other exactly when they are equal |
| Pem.BlockLines | src/cloud/flows_crypto.rs:117-126 | the lines are mark, rows, mark, and all keep within 64 characters exactly when the label has at most 48 |
| Pem.EitherFormIsTheSameKey | src/cloud/flows_crypto.rs:128-139 | a PKCS#1 block and the PKCS#8 block of the same key load as the same PKCS#8 bytes |
| CappedRead.ReadCapped | src/link_preview.rs:219-244 | the loop that scans only from the overlap point returns what scanning the whole buffer after each chunk would |
| CappedRead.OverlapIsEnough | src/link_preview.rs:231-240 | if the earlier bytes do not hold the marker, the tail from one marker width before the new ones holds it exactly when the whole does |
| CappedRead.SameLetterMeans | src/link_preview.rs:231-237 | the marker is matched up to the case of the 26 letters and nothing else |
| CappedRead.ReadIsPrefix | src/link_preview.rs:219-244 | for every split into chunks: a prefix of at most `cap` bytes that holds the marker exactly when the first `cap` bytes do, and all of those when they do not |
| CappedRead.SplitDoesNotMatter | src/link_preview.rs:219-244 | without a marker two splits of one body read the same |
| CappedRead.OversizeIsSeen | src/link_preview.rs:262-265 | reading one byte past the limit tells exactly whether the image is over it |
| CappedRead.FailsExactlyWhen | src/link_preview.rs:227-231 | the read fails exactly when an error is reached before the marker and before the cap was already full one chunk earlier |
| CappedRead.FullThenBrokenFails | src/link_preview.rs:227-231 | one chunk that fills the cap exactly and then an error: nothing is returned |
| TagAttrs.ParseAttrs | src/link_preview.rs:354-408 | the index loops terminate in bounds and compute the map of the step-wise reader |
| TagAttrs.PrintedTagParses | src/link_preview.rs:354-408 | printed attributes, quoted, bare or without a value and however spaced, are read back as the first-wins map of those with a value, with lowercased keys |
| TagAttrs.FirstWinsMeans | src/link_preview.rs:354-408 | that map has exactly the keys that occur with a value, each with the first one |
| TagAttrs.LowerMeans | src/link_preview.rs:373-376 | lowercasing changes the 26 letters to their small forms and nothing else |
| MetaTags.CollectMeta | src/link_preview.rs:297-319 | the tag loop terminates in bounds and collects the entries of the tags it reads |
| MetaTags.TagsAdvance | src/link_preview.rs:301-318 | the scan position strictly advances: tags do not overlap and each ends after it starts |
| MetaTags.TagsAreTags | src/link_preview.rs:301-306 | each tag read starts with `<meta` and ends at the first `>` after that |
| MetaTags.NoTagIsMissed | src/link_preview.rs:301-306 | every `<meta` that a `>` follows is the start of a tag that is read, or inside one |
| MetaTags.FirstTagWins | src/link_preview.rs:308-317 | a key has the content of the first tag that carries it |
| MetaTags.PrintedTagMeans | src/link_preview.rs:307-316 | a printed tag contributes its first content under its first `property`, or under its first `name` without one, and nothing otherwise |
| FirstUrl.FindUrl | src/link_preview.rs:103-132 | the scan and the trimming loop end and compute the link |
| FirstUrl.StartIsFirst | src/link_preview.rs:104-108 | the start is the first place where either scheme stands |
| FirstUrl.CandidateRuns | src/link_preview.rs:109-112 | the candidate runs to the first white space, `<`, `>` or `"`, or to the end of the text |
| FirstUrl.TrimmedIsLongestSettled | src/link_preview.rs:113-129 | trimming ends at the longest beginning that ends in none of `.,;:!?'` and in no bracket that closes more than was opened |
| FirstUrl.ResultInPlace | src/link_preview.rs:100-132 | a result stands in the text at the first scheme, keeps its scheme and a host, has no stop character, and is the longest such beginning |
| FirstUrl.Idempotent | src/link_preview.rs:100-132 | looking for a link in a result gives the result |
| FirstUrl.NoUrlExactlyWhen | src/link_preview.rs:130-131 | there is no result exactly when there is no scheme or the first one is left without a host |
| FirstUrl.BareSchemeHidesLinks | src/link_preview.rs:104-112 | a scheme followed by a stop hides whatever the rest of the text holds |
| LikePattern.ThreePassesAreOne | src/db/messages.rs:500-506 | the three replacements equal one single-pass escape |
| LikePattern.PatternIsExact | src/db/messages.rs:499-506 | the pattern read by the LIKE matcher with escape `\` matches exactly the bodies that contain the query |
| Placeholders.PgSql | src/db/new_chats.rs:49-64 | the counting loop writes the numbered text |
| Placeholders.ReadsPlaceholder | src/db/new_chats.rs:55-58 | a written placeholder reads as its own number unless a digit follows, and then as a larger one |
| Placeholders.RewritePreservesBinding | src/db/new_chats.rs:49-64 | for all parameter lists both texts bind the same exactly when no digit stands right after a `?` or a `$` |
| Placeholders.DigitAfterMark | src/db/new_chats.rs:55-58 | `?1` becomes `$11`, which binds another parameter |

## Left out

- Network and process I/O, the database drivers and their connection errors inside one statement; an
  HTTP attempt is a reply with a duration, a statement is atomic.
- ProbeRuns.OverlapLimit: assumes that a run starts when it is admitted and reports when it ends, and
  that the clock does not step back between calls; `ProbeRuns.LadderLimit` assumes the same.
- Webhooks.AppState.BroadcastToWebhooks: one broadcast without calls of other tasks in between; those
  interleave in Deliveries.
- Webhooks.FanoutPartitions: one uninterrupted broadcast only.
- Webhooks.AppState.ReenableAllOpenCircuits: the source holds one entry at a time; the method does
  the whole sweep at once, while the circuit runs have one step for each URL.
- BlastDrain.BlastStore.ClaimAndProcess: which due job is claimed is left to the caller; the order by
  creation time, and the timestamp columns of jobs and recipients, are not modelled.
- BlastDrain.BlastStore.ProcessJob: one tick without calls of others, in which the status read before
  each batch always finds the job running; the read, deaths and calls are in BlastWorker, whose
  statements `BlastProgress.RecipientAgrees` ties to this class recipient by recipient.
- The blast handler's response to a recipient whose body cannot be rebuilt: the worker's early exit
  is a death between two statements in the model.
- The database copy of the dead letters, NATS publishing, signatures, and webhook events of jobs.
- Placeholders.PgSql: the source counts in 32 bits; the model's counter is unbounded.
- Placeholders.RewritePreservesBinding: exact for the reading in which `$` and the digits after it are a
  parameter wherever they stand. Postgres's own reading of quotes, comments, dollar-quoted text (`$?`
  becomes `$$1`), identifiers (`LIMIT?` becomes `LIMIT$1`, one name) and number literals is not modelled.
- LIKE's case folding.
- MetaTags.CollectMeta: decoding entities and trimming are a parameter; the `<title>` tag, the choice
  among keys and the clipping in `parse_meta` are not modelled.
- The preview cache, the account-lock ladder, the new-chat tables, `fts5_match_query` and the FTS
  triggers: they would only add easy members.
- Cryptographic primitives; `parse_private_key` is modelled up to the bytes it hands on.
- Rust strings are sequences of characters here, not of UTF-8 bytes; the positions found by `find`
  are character positions.
