# A verified model of Open Review's durable runtime and review pipeline

Open Review queues GitLab events per merge request, drains each queue with at most one worker at a
time, and publishes reviews whose hidden markers let later runs recognise them. This project models
that behaviour in Dafny 4.11 and proves what it promises. `dafny verify dfyconfig.toml` checks all of it.

How the files fit together:

- **Stores.** `ActorRecords` holds one actor's durable record and the store transactions on it.
  `InMemoryStore` and `SQLiteStore` are the two store classes with their own mutable collections;
  each method is proved to perform exactly one of those transactions. `RuntimeStores` and
  `StoreLockstep` compare the two over arbitrary operation sequences. `Batches` says what a popped
  batch is.
- **Protocol.** `ActorProtocol` is the step relation of everyone who touches one actor: drains with a
  program counter, clients (webhooks, pollers, the calendar), the operator, the clock, and crashes.
  Each store transaction is one step. `NoLostWakeup`, `ExclusiveRuns` and `LogicalQueue` are
  invariants over every run of it; `RetryBudget`, `TimelyBatches`, `SpentBudget` and `LostRaises` say
  in how many raising runs an event can be: on all runs, on timely ones, that the bound is met, and
  where it fails. `LeaseTerms` says how long a granted lease keeps others out. `Worker` is
  `drain_mr_actor`, `enqueue_gitlab_event` and `resume_runtime_processing` as methods over the SQLite
  store class, and `UndisturbedDrains` connects its drain to the steps of the protocol;
  `StolenWakeups` is a run in which a webhook takes the wake-up of its own event.
- **Publishing and scheduling.** `PublishProtocol` (racing publishers of one operation key),
  `PublishService` (one caller), `PeriodicScheduling` (daily audits and self-evolution, as one pass
  over the projects), `EvolutionSpacing` (overlapping, crashing polls of one project's self-evolution).
- **Auto review.** `ChangedFiles` (name-status parsing), `Findings`, `KeyedBest` and
  `ReviewFinalizing` (normalising, de-duplicating, ranking and capping findings), `Markers`,
  `Comments` and `ReviewComments` (marker printing and parsing, truncation, upserts, and what the
  next review reads back).
- **Diffs.** `DiffParser` holds the two parsing loops, `DiffDocuments` prints unified diffs from real
  files and edit scripts, `DiffPositions` and `AddedLines` state when the parsed numbers are right.
- **Admin table.** `ActorSummaries`: five stable sorts, one lexicographic order.
- `Wrappers`, `Sequences`, `Orderings` and `Text` are shared vocabulary.

## Findings about the code

These are places where a promise needs a condition the code does not enforce; each is stated as an
exact condition or a concrete run below.

- Every process but a worker gets the no-op job queue (`deploy/stack/docker-compose.yml:47` runs the
  webhooks in one): an event it appends is flagged but posts no job. Such an append loses the wake-up
  exactly when nobody else answers for the actor (`NoLostWakeup.PassiveAppendIff`), setting the flag
  exactly when it was clear and neither a job, a poll, a posting client nor a working drain answers for
  it (`NoLostWakeup.PassiveMarkIff`); faults apart these are all the steps after which a wake-up can be
  lost (`NoLostWakeup.DisturbsIff`). A webhook can also take the wake-up from a drain that has seen its
  event (`StolenWakeups.WakeupIsStolen`). The event then waits for one poll
  (`NoLostWakeup.EventsWaitForOnePoll`).
- The retry budget bounds the failing runs the store records, not the runs: a process that dies in the
  handler, or between the raise and the record of it, uses up no attempt, so an event can be in any
  number of such runs (`LostRaises.RunsAreUnbounded`). With heartbeats in time the raising runs are
  exactly the recorded ones and those lost that way (`TimelyBatches.TimelyRaisesAreCounted`), and
  without such a death the budget bounds them all (`TimelyBatches.TimelyRaisesAreBounded`).
- The two stores answer alike except at two points: an event id that SQLite's time-to-live has purged
  while the in-memory store remembers it for good, and a failure reported for an empty batch while
  nothing is in flight, where SQLite takes the maximum of an empty list (`RuntimeStores.StoresAgreeIff`).
- A publisher that dies between its success and the record of it is replaced after the stale age, and
  the operation is published twice; publishing is at most once on every timely run exactly when the
  stale age is off (`PublishProtocol.AtMostOnceIff`, `PublishProtocol.PublishesAfterLossIff`).
- A poll reads the recorded day, appends the self-evolution event and records its day in three
  transactions. Two polls that overlap can schedule two days too close together, and the one that
  records last can put the recorded day back (`EvolutionSpacing.OverlapBreaksSpacingIff`); so can a crash
  between append and record (`EvolutionSpacing.CrashBreaksSpacingIff`). The steps after which the
  spacing can break are exactly a read of a day behind the latest, an append in front of a poll that
  has read before, and an append of a day the store has forgotten
  (`EvolutionSpacing.EvolutionsAreSpacedIff`); polls that take turns and do not die between append and
  record are always spaced (`EvolutionSpacing.PollsInTurnAreSpaced`).
- `diff_line_positions` drops an added line whose content starts `++` and a deleted one whose content
  starts `--` (`DiffPositions.PositionsAreRealIff`), and `added_lines` numbers an addition behind a
  `\ No newline at end of file` line one too high (`AddedLines.NoNewlineShiftsFastScan`).
- A comment over 65000 characters always loses its last marker, so an over-long inline comment is
  recognised later only if its visible text says the key (`ReviewComments.PostedKeyIff`), and an
  over-long summary can be posted twice (`ReviewComments.PostedSummaryIff`, `Comments.PostTwiceIff`).

## Model

| member | source | states |
|---|---|---|
| ActorRecords.TakeBatch | agent/runtime/store.py:662-692 | the popping loops take exactly the first `BatchLength` events and leave the rest in order |
| ActorRecords.MaxAttemptsIsMax | agent/runtime/store.py:733-776 | the attempts a failing batch is stamped from are the largest of its events |
| ActorRecords.FailureIsRetriedIff | agent/runtime/store.py:216-244 | a failed batch is kept iff every event of it stays below the configured number of runs with this one, and dropped otherwise |
| ActorRecords.FailureStamps | agent/runtime/store.py:216-244 | a kept batch carries the error and one attempt more than the most any of its events had |
| ActorRecords.GrantKeepsOthersOutIff | agent/runtime/store.py:1186-1207 | a lease granted at `t` for `ttl` names its owner and `t + ttl`, and another worker is refused iff it asks before |
| ActorRecords.CancelledIff | agent/runtime/store.py:594-618 | an event is cancelled iff one of its id waits and none is in flight |
| Batches.EligibleExtends | agent/runtime/store.py:98-111 | the joining test is exact: a batch extended by an event is a review block or mention chain iff the event joins |
| Batches.BatchIsLongestEligiblePrefix | agent/runtime/store.py:662-692 | a popped batch is eligible and no longer prefix of the queue is |
| Batches.PartitionFlattens | agent/runtime/store.py:662-716 | repeated pop and ack loses, repeats and reorders nothing |
| Batches.PartitionIsGreedy | agent/runtime/store.py:98-111 | every batch is eligible, none could take the next event, and neighbours are never both auto reviews |
| InMemoryStore.ComposePut | agent/runtime/store.py:133-147 | a change of the four collections confined to one actor changes only that actor's record |
| InMemoryStore.Store.AppendEvent | agent/runtime/store.py:149-155 | an unseen event goes to the end of its actor's queue and its id is remembered; a seen one changes nothing |
| InMemoryStore.Store.RemovePendingEvent | agent/runtime/store.py:161-175 | removes the pending events of that id iff none of it is in flight, and says whether it did |
| InMemoryStore.Store.RestoreInflight | agent/runtime/store.py:181-189 | the inflight batch goes back in front of the pending events in its order |
| InMemoryStore.Store.PopNextBatch | agent/runtime/store.py:191-208 | nothing while a batch is in flight; otherwise the next batch moves in flight and is returned |
| InMemoryStore.Store.AckBatch | agent/runtime/store.py:210-214 | clears the inflight batch only if its ids are those acknowledged |
| InMemoryStore.Store.MarkInflightFailed | agent/runtime/store.py:216-244 | stamps every event with one more than the largest attempts, and keeps the batch iff each stays below the configured number, else drops it |
| InMemoryStore.Store.MarkActorScheduled | agent/runtime/store.py:365-370 | sets the flag and reports whether it was clear |
| InMemoryStore.Store.AcquireLease | agent/runtime/store.py:376-383 | refused iff another worker's lease runs; a grant expires at now plus its term |
| InMemoryStore.Store.HeartbeatLease | agent/runtime/store.py:385-391 | extends the caller's own lease only |
| InMemoryStore.Store.ReleaseLease | agent/runtime/store.py:393-397 | drops the caller's own lease only |
| InMemoryStore.Store.ListActorStatuses | agent/runtime/store.py:336-363 | one line per actor with any state, in key order |
| SQLiteStore.Store.Persist | agent/runtime/store.py:505-539 | the actor's record becomes what the row says, an all-empty row being deleted, and no other record changes |
| SQLiteStore.Store.AppendEvent | agent/runtime/store.py:544-578 | purges ids older than the TTL, then accepts an id iff it is not remembered |
| SQLiteStore.Store.RemovePendingEvent | agent/runtime/store.py:594-618 | removes the pending events of that id iff none of it is in flight, and says whether it did |
| SQLiteStore.Store.RestoreInflight | agent/runtime/store.py:634-657 | the inflight batch goes back in front of the pending events in its order |
| SQLiteStore.Store.PopNextBatch | agent/runtime/store.py:662-692 | nothing while a batch is in flight; otherwise the next batch moves in flight and is returned |
| SQLiteStore.Store.AckBatch | agent/runtime/store.py:697-715 | clears the inflight batch only if its ids are those acknowledged |
| SQLiteStore.Store.MarkInflightFailed | agent/runtime/store.py:733-776 | as in memory, keeping the batch under the same exact condition, and raises for an empty batch while nothing is in flight |
| SQLiteStore.Store.MarkActorScheduled | agent/runtime/store.py:1140-1160 | sets the flag and reports whether it was clear |
| SQLiteStore.Store.ClearActorScheduled | agent/runtime/store.py:1165-1181 | clears the flag and nothing else |
| SQLiteStore.Store.AcquireLease | agent/runtime/store.py:1186-1207 | refused iff another worker's lease runs; a grant expires at now plus its term |
| SQLiteStore.Store.HeartbeatLease | agent/runtime/store.py:1212-1232 | extends the caller's own lease only |
| SQLiteStore.Store.ReleaseLease | agent/runtime/store.py:1237-1256 | drops the caller's own lease only |
| SQLiteStore.Store.ListActorStatuses | agent/runtime/store.py:1107-1135 | one line per stored row, in key order |
| SQLiteStore.Store.ClaimPublishReceipt | agent/runtime/store.py:849-900 | the stored receipt wins unless it failed or is a stale claim; otherwise the caller's claim is stored |
| RuntimeStores.StatusTells | agent/runtime/store.py:1107-1135 | a status line counts the pending and the inflight events of its actor and tells its flag, owner and the time left |
| RuntimeStores.StepAgreesIff | agent/runtime/store.py:149-397 | one operation gets the same reply from both stores iff it hits neither point where they differ, and then the states stay related |
| RuntimeStores.StoresAgreeIff | agent/runtime/store.py:133-397 | the same for every sequence of queue, schedule, lease, receipt and status operations |
| RuntimeStores.WellUsedStoresAgree | agent/runtime/store.py:541-578 | with appends committed in clock order, overlapping or not, no id sent again more than the TTL later and no empty failure, all replies are equal |
| StoreLockstep.PerformInMemory | agent/runtime/store.py:133-397 | every method of the in-memory class is the specified step |
| StoreLockstep.PerformSQLite | agent/runtime/store.py:541-917 | every method of the SQLite class is the specified step |
| StoreLockstep.RunBoth | agent/runtime/store.py:133-397 | the two classes, driven through any well-used sequence, return equal replies |
| ActorProtocol.StepRegisters | agent/runtime/worker.py:1287-1292 | worker ids are not reused and a lease names a worker that has existed |
| ActorProtocol.DrainStepIsLocal | agent/runtime/worker.py:1276-1536 | a drain changes no other drain and no client |
| ActorProtocol.DrainStepLease | agent/runtime/store.py:1186-1256 | nobody takes a lease that still runs; a drain changes it only to hold it while working or to drop it |
| NoLostWakeup.NoWakeupIsLost | agent/runtime/worker.py:1531-1536 | on every run without a fault and without an unheard append or mark of a no-op process, an actor with events has a job, a client about to clear, mark or enqueue, or a drain; when all parties are gone nothing is queued or flagged |
| NoLostWakeup.InvIff | agent/runtime/worker.py:1531-1536 | the invariant is exact: unless a dead worker's lease still runs, it holds iff no undisturbed run from the state ends with events and nobody to run them |
| NoLostWakeup.DisturbsIff | agent/runtime/queue.py:45-95 | the premise is exact: a step that is no fault is an unheard append or mark iff after it an undisturbed run can lose a wake-up |
| NoLostWakeup.StepKeepsIff | agent/runtime/queue.py:45-95 | faults apart, a step keeps the invariant iff it is no unheard append or mark |
| NoLostWakeup.PassiveAppendIff | agent/runtime/queue.py:45-95 | an event appended by a no-op process is answered for iff somebody answers for the actor already |
| NoLostWakeup.PassiveMarkIff | agent/runtime/queue.py:45-95 | a flag set by a no-op process is answered for iff it was set before or a job, a poll about to clear it, a posting client or a drain before its look answers for it |
| NoLostWakeup.DrainKeepsCover | agent/runtime/worker.py:1289-1292 | a job that gives up on a held lease, and the clear, look and mark handshake, leave the flag covered |
| NoLostWakeup.LeaseStaysAnswered | agent/runtime/store.py:1186-1256 | a running lease belongs to a live drain as long as no drain crashes |
| NoLostWakeup.PollRepairs | agent/runtime/queue.py:62-75 | after any run whatever, one look of a poll brings the actor back unless a dead worker's lease still runs, and it stays so until the next fault or unheard step |
| NoLostWakeup.EventsWaitForOnePoll | agent/runtime/queue.py:62-75 | while no drain crashes, the next poll brings the actor back whatever webhooks did and whatever jobs and clients were lost |
| NoLostWakeup.PassiveEnqueueWaitsForPoll | agent/runtime/queue.py:31-36 | a webhook event on any idle actor waits, flagged, with nobody to run it |
| NoLostWakeup.PassiveMarkStealsWakeup | agent/runtime/queue.py:89-91 | a webhook that marks between the last look and the mark of a finishing drain leaves its event flagged with nobody to run it |
| StolenWakeups.WakeupIsStolen | agent/runtime/queue.py:78-95 | such a run from the empty actor, undisturbed up to that mark |
| LeaseTerms.AskTwiceInMemory | agent/runtime/store.py:376-383 | after a grant at `t` for `ttl` another worker asking at `u` gets the lease iff `t + ttl <= u` |
| LeaseTerms.AskTwiceSQLite | agent/runtime/store.py:1186-1207 | the same of the SQLite store |
| LeaseTerms.GrantKeepsOthersOut | agent/runtime/store.py:1186-1256 | over every run, crashes included, every other drain is refused for the whole term of a grant unless the holder releases |
| LeaseTerms.GrantEndsIff | agent/runtime/store.py:1186-1207 | while nobody touches the lease another drain gets it iff the term is over |
| ExclusiveRuns.OneActiveRun | agent/runtime/worker.py:1261-1273 | with timely heartbeats at most one drain is between acquire and release, in every interleaving with crashes |
| ExclusiveRuns.OneActiveRunFromInit | README.md:26 | at most one handler of an actor runs at a time |
| ExclusiveRuns.TwoHandlersIffLate | agent/runtime/store.py:1186-1207 | beside a running handler a waiting job gets into a second one iff the owner let its lease expire: the timing premise cannot be weakened |
| ExclusiveRuns.LostLeaseNeverAcks | agent/runtime/worker.py:1485-1511 | with no timing premise, a drain that finds its lease gone changes nothing then and never acks or fails a batch afterwards |
| LogicalQueue.AcceptedEventsAreConserved | agent/runtime/store.py:544-776 | over every run the accepted events are the log, and those without a fate are exactly inflight then pending, in order of arrival, each unchanged but for the attempts and last error of its recorded failing runs, and unchanged without one |
| LogicalQueue.EventsLeaveInOrder | agent/runtime/store.py:662-776 | while an event is queued none accepted after it has been acknowledged, terminated or dropped |
| LogicalQueue.EveryDepartureHasACause | agent/runtime/worker.py:1298-1530 | every entry acked or terminated had a handler return or stop on an accepted event of its id, on itself if the id was accepted once; a dropped one failed itself and left with at least the configured number of attempts |
| TimelyBatches.EveryDepartureHasItsOwnCause | agent/runtime/worker.py:1298-1530 | with heartbeats in time the handler returned, or was stopped, on that very entry, even when ids repeat |
| LogicalQueue.RetriesAreBounded | agent/runtime/store.py:733-776 | no event is in more recorded failing runs than the configured number, or one if that is less, and every queued one has attempts left |
| RetryBudget.RaisesAreBounded | agent/runtime/worker.py:1451-1484 | on every run an event is in no more raising runs than the configured number, or one if that is less, plus those the store has no record of |
| TimelyBatches.StaysSynced | agent/runtime/store.py:662-776 | with heartbeats in time the batch of a drain at work is the batch in flight, the front of the queue |
| TimelyBatches.TimelyRaisesAreBounded | agent/runtime/worker.py:1451-1484 | with heartbeats in time and no drain lost between raise and record, an event is in no more raising runs than the configured number, or one if that is less |
| SpentBudget.BudgetIsSpent | agent/runtime/worker.py:1451-1484 | the bound is met: on such a run an event alone fails exactly that often and is then dropped |
| TimelyBatches.TimelyRaisesAreCounted | agent/runtime/worker.py:1451-1484 | with heartbeats in time, whatever is lost: the raising runs of an event are exactly those recorded in it and those the store never heard of |
| LostRaises.CrashedRaise | agent/runtime/worker.py:1451-1464 | a raise whose process dies before recording it changes neither the record nor the account of failures |
| LostRaises.RunsAreUnbounded | agent/runtime/worker.py:1298-1464 | for every sequence of deaths in the handler or after the raise there is a run, heartbeats in time, with one event in that many runs, still queued as accepted and no failure recorded |
| LostRaises.RaisesAreUnbounded | agent/runtime/worker.py:1451-1464 | so for every number there is one with that many raising runs |
| LogicalQueue.FailureRaisesAttempts | agent/runtime/store.py:733-776 | a retried batch keeps its ids and each of its events gains attempts |
| LogicalQueue.OnlyTheOwnBatchIsTouched | agent/runtime/store.py:697-776 | a drain, stale or not, changes the logical queue only where the inflight ids are those it ran, and removes only that batch |
| LogicalQueue.CancelKeeps | agent/runtime/store.py:594-618 | cancelling removes only pending events of that id and keeps the account of the others |
| LogicalQueue.PopAndRestoreKeepQueue | agent/runtime/store.py:634-692 | pop and restore keep inflight followed by pending as it was |
| Worker.EnqueueGitlabEvent | agent/runtime/queue.py:78-95 | a new event is queued and its actor flagged; a job is posted unless the flag was set; a duplicate changes nothing |
| Worker.ResumeRuntimeProcessing | agent/runtime/queue.py:62-75 | one undisturbed pass leaves exactly the actors with events or a flag flagged, posts one job for each in key order, and counts them |
| Worker.RunBatch | agent/runtime/worker.py:1359-1511 | for any record and lease: the batch in flight is acknowledged, terminated, or restamped or dropped only if its ids are those run, and a return without the lease raises and leaves it |
| Worker.RunBatches | agent/runtime/worker.py:1298-1530 | the loop runs exactly the batches of the queue up to the first failing one |
| Worker.FinishDrain | agent/runtime/worker.py:1531-1536 | drops its own lease only, and leaves the actor flagged with a job exactly when it has events |
| Worker.DrainMrActor | agent/runtime/worker.py:1276-1536 | an undisturbed drain: nothing without the lease; with it, the specified batches run and the record and jobs left behind |
| UndisturbedDrains.DrainIsAnUndisturbedRun | agent/runtime/worker.py:1276-1536 | the steps of the protocol that this drain takes end in that very record and job, whatever its handlers do |
| Worker.DrainUsesBudget | agent/runtime/worker.py:1451-1484 | a drain that does not fail empties the queue; one that fails lowers the attempts left |
| Worker.QuietDrainRunsPartition | agent/runtime/worker.py:1298-1530 | when no handler raises, the batches run are the partition of the queue |
| Worker.DrainToCompletion | agent/runtime/worker.py:1531-1536 | taking the jobs its own drains post, a worker ends with the actor empty and no job within one more drain than the attempts left below the configured number |
| PublishProtocol.PublishedAtMostOnce | agent/runtime/publish.py:90-117 | with no claim outliving the stale age: one claim holder, a completed receipt stays, successes at most one plus those lost to crashes |
| PublishProtocol.PublishedAtMostOnceFromInit | agent/runtime/publish.py:90-117 | the publisher succeeds at most once on every timely run in which the stale age is off or no success is lost |
| PublishProtocol.NothingLost | agent/runtime/publish.py:102-117 | a run without crashes loses no success, whatever its timing |
| PublishProtocol.AtMostOnceIff | agent/runtime/publish.py:90-117 | crashes included, at most once on every timely run iff the stale age is off |
| PublishProtocol.PublishesAfterLossIff | agent/runtime/store.py:114-130 | after a lost success a waiting caller publishes again iff the stale age is on and reached; else it gets the dead claim |
| PublishProtocol.TwoSuccessesIffStale | agent/runtime/store.py:114-130 | beside a publishing caller a second one also gets to succeed iff the claim reached the stale age: the timing premise cannot be weakened |
| PublishProtocol.LaterCallersGetTheReceipt | agent/runtime/publish.py:98-100 | once completed, every later caller gets the stored receipt and calls nothing |
| PublishProtocol.RecordedSuccessSettles | agent/runtime/publish.py:62-88 | that state is reached by the first success recorded in time |
| PublishProtocol.CrashPublishesTwice | agent/runtime/publish.py:102-117 | a crash between success and record leads to a second success |
| PublishService.Service.Publish | agent/runtime/publish.py:90-117 | calls the publisher iff no live receipt blocks it, and stores completed, with the id it returned, or failed accordingly |
| PublishService.Service.PublishAgain | agent/runtime/publish.py:39-60 | a repeat after success returns the same receipt uncalled; after a failure it calls again |
| PeriodicScheduling.StoreAppendIsSending | agent/runtime/store.py:544-578 | the store's append accepts and remembers ids as the sending model does |
| PeriodicScheduling.AcceptedAreSpread | agent/runtime/store.py:544-578 | two accepted appends of one id are more than the TTL apart, whatever comes between, overlapping calls included |
| PeriodicScheduling.OneAuditPerDate | agent/runtime/worker.py:1619-1639 | any number of polls, overlapping or not, accepts at most one audit per project and date within the TTL |
| PeriodicScheduling.MaybeEnqueueDailyAudits | agent/runtime/worker.py:1589-1641 | audits a project iff its audit is enabled, its start time has come and its id of the date is not remembered: queues its event behind the others, flags its actor, remembers the id, posts a job for each actor that was not flagged, and touches no other record |
| PeriodicScheduling.PollTwice | agent/runtime/worker.py:1589-1641 | a second poll of the date schedules nothing |
| PeriodicScheduling.MaybeEnqueueEvolutions | agent/runtime/worker.py:1644-1708 | schedules a project iff enabled, the start time has come, at least the interval and a day have passed since its recorded day, and its id is not remembered: queues, flags, posts and records the day |
| PeriodicScheduling.AuditIdIsOfOne | agent/runtime/worker.py:1619-1620 | audit ids of different projects or dates differ |
| PeriodicScheduling.ScheduleTable.RecordManualTrigger | agent/controlplane/service.py:1031-1043 | a manual trigger leaves every scheduled date alone |
| EvolutionSpacing.EvolutionsAreSpaced | agent/runtime/worker.py:1673-1708 | over every run of overlapping and crashing polls without a disturbing step, each scheduled day is at least its interval and at least a day behind the one before |
| EvolutionSpacing.SafeIff | agent/runtime/worker.py:1673-1708 | a state is safe on every undisturbed run iff its days are spaced and each poll on its way would be refused or fits |
| EvolutionSpacing.EvolutionsAreSpacedIff | agent/runtime/worker.py:1673-1708 | the premise is exact: a step is a stale read, an overtaking append or a repeated day iff after it an undisturbed run can break the spacing |
| EvolutionSpacing.PollsInTurnAreSpaced | agent/runtime/worker.py:1673-1708 | polls that take turns and do not die between append and record are always spaced, whatever the interval does |
| EvolutionSpacing.RepeatsAreLate | agent/runtime/store.py:544-578 | a scheduled day is accepted again only more than the TTL after it was appended |
| EvolutionSpacing.OverlapBreaksSpacingIff | agent/runtime/worker.py:1673-1705 | two overlapping polls, the first to append recording last, put the recorded day back; the three days scheduled are spaced iff both gaps are |
| EvolutionSpacing.CrashBreaksSpacingIff | agent/runtime/worker.py:1698-1705 | the day scheduled next after a crash between append and record is spaced iff it comes an interval later |
| EvolutionSpacing.PassIsARun | agent/runtime/worker.py:1664-1708 | an uninterrupted pass over the projects is a run of these steps for each project and schedules it iff its event is among those of `MaybeEnqueueEvolutions` |
| DiffParser.DiffLinePositions | agent/utils/diff_parser.py:74-124 | the loop computes the specified scan of the classified lines |
| DiffParser.AddedLines | agent/utils/diff_parser.py:53-71 | the fast loop computes its specified scan |
| DiffParser.ResolveDiffLinePosition | agent/utils/diff_parser.py:127-141 | returns the first position with the number asked for, in the new file, in the old one, or of a context line, or none |
| DiffDocuments.PositionsAreTrue | agent/utils/diff_parser.py:74-124 | the positions of an edit script name lines that are really in the old and new file, strictly increasing per side |
| DiffPositions.HeaderRoundTrip | agent/utils/diff_parser.py:74-86 | every printed hunk header is read back to its two start lines |
| DiffPositions.PositionsAreRealIff | agent/utils/diff_parser.py:74-124 | for any old file and edit script, parsing the printed diff gives the real positions iff no shown line has a break or prints as a file header |
| DiffPositions.ParsedPositionsAreTrue | agent/utils/diff_parser.py:74-124 | so each parsed position indexes exactly that line, in strictly increasing order per side |
| DiffPositions.AnchorIsUnique | agent/utils/diff_parser.py:127-141 | per side, an anchor resolves to a position iff it is the one line of the diff with that new, old, or context number |
| DiffPositions.AnchorNamesItsLine | agent/utils/diff_parser.py:127-141 | what is found is that very line of the new file, of the old one, or of both |
| DiffPositions.FastScanIsTrueIff | agent/utils/diff_parser.py:53-71 | on such a diff `added_lines` is right iff no hunk inserts after a no-newline mark |
| AddedLines.AddedLinesRefinePositions | agent/utils/diff_parser.py:53-124 | for every text, `added_lines` equals the additions of `diff_line_positions` iff no addition is outside a hunk or behind a stray line of it |
| AddedLines.NoNewlineShiftsFastScan | agent/utils/diff_parser.py:66-70 | a no-newline mark before an addition shifts its number by one |
| ChangedFiles.CollectChangedFiles | agent/scenes/auto_review/orchestrator.py:390-456 | git's error is raised; otherwise the index loop reads exactly the records of the output, or raises past its end, and describes each with its flags and added lines |
| ChangedFiles.FlagsTell | agent/scenes/auto_review/orchestrator.py:443-454 | new, deleted and renamed are a status beginning A, D and R; path, old path and diff are those of the record |
| ChangedFiles.PrintedFields | agent/scenes/auto_review/orchestrator.py:421-430 | a status beginning R or C has two paths, any other one |
| ChangedFiles.RoundTripIff | agent/scenes/auto_review/orchestrator.py:409-432 | printing and reading back a list of changes is in bounds and exact iff all are records git can print |
| ChangedFiles.ParsedTokens | agent/scenes/auto_review/orchestrator.py:409-432 | what is read prints back to the tokens but the empty ones skipped as a status: none is lost or read twice |
| ChangedFiles.OnlyEmptyIsSkipped | agent/scenes/auto_review/orchestrator.py:414-420 | nothing is skipped when no entry is empty |
| KeyedBest.OneBestPerKey | agent/scenes/auto_review/orchestrator.py:1153-1162 | exactly one item per key of the input, the earliest of the best |
| KeyedBest.BestPerKey | agent/scenes/auto_review/orchestrator.py:1154-1161 | the dictionary loop keeps the winner of each key in order of first appearance |
| KeyedBest.RankedIsSorted | agent/scenes/auto_review/orchestrator.py:1162-1162 | best first, ties in the order their keys came |
| Orderings.StrLeMeans | agent/admin/router.py:980-981 | one string sorts before another iff it is a prefix of it or has the smaller character where they first differ |
| Orderings.StableSortIsUnique | agent/scenes/auto_review/orchestrator.py:1162-1162 | order and stability determine the result, so the modelled sort is any stable sort |
| Findings.NormalizedTextIsNormal | agent/scenes/auto_review/orchestrator.py:246-247 | normalised text has single inner spaces only, and is left alone by normalising |
| Findings.RankingIsTotal | agent/scenes/auto_review/orchestrator.py:326-331 | severity, confidence, lower-cased summary is a total preorder |
| Findings.RankMeans | agent/scenes/auto_review/orchestrator.py:326-331 | high outranks medium outranks low, in severity, then in confidence, then the larger summary |
| Findings.SameBasisIff | agent/scenes/auto_review/orchestrator.py:268-279 | derived keys come from the same text iff file, line, symbol, category and the shortened summary agree |
| Findings.NormalizeKeeps | agent/scenes/auto_review/orchestrator.py:282-303 | normalising keeps severity, confidence and an own key, drops a line below one, and leaves normal texts and at most five pieces of evidence |
| Findings.NormalizingKeepsWords | agent/scenes/auto_review/orchestrator.py:246-247 | normalised text has the same words in the same order |
| Findings.DedupeFindings | agent/scenes/auto_review/orchestrator.py:1153-1162 | the method returns the specified ranked list |
| Findings.DedupedIsBestPerKey | agent/scenes/auto_review/orchestrator.py:1153-1162 | one finding per key of the normalised input, the earliest of the best, best first |
| Findings.GravestIsKept | agent/scenes/auto_review/orchestrator.py:1153-1162 | no finding of high severity is given up for less, nor at equal severity one of high confidence |
| Findings.GraverComesFirst | agent/scenes/auto_review/orchestrator.py:1160-1162 | graver findings come first, then more confident ones |
| Findings.SecondPassKeepsKeys | agent/scenes/auto_review/orchestrator.py:282-303 | de-duplicating again changes no key and no order |
| ReviewFinalizing.FinalizersAgree | agent/scenes/auto_review/orchestrator.py:1354-1386 | both finalisers compute the same lists |
| ReviewFinalizing.CandidateKeys | agent/scenes/auto_review/orchestrator.py:1456-1468 | which keys are candidates: normalised input keys, less the published ones, less the confirmed ones for suspicious |
| ReviewFinalizing.FinishedReview | agent/scenes/auto_review/orchestrator.py:1451-1482 | prefixes of the ranked candidates, none less severe than one that was cut, total exactly the smaller of limit and candidates, suspicious empty once a confirmed one is cut, no key twice, in both, or published before |
| ReviewFinalizing.InlineCandidatesIff | agent/scenes/auto_review/orchestrator.py:1175-1186 | inline are exactly the confirmed, high-confidence findings in a changed file, on an added line if it has any |
| Markers.MarkerReadIff | agent/scenes/auto_review/orchestrator.py:58-58 | the reader finds a marker iff the expression matches there, and then match and groups are unique |
| Markers.NoMatchStraddles | agent/gitlab/comments.py:14-14 | no match reaches from text across a line end into a marker |
| Markers.WrittenMarkersAreRead | agent/scenes/auto_review/orchestrator.py:242-243 | behind any text exactly the written markers are read, after the text's own |
| Comments.CloselessTailIsIgnored | agent/gitlab/comments.py:30-33 | the truncation notice adds no marker and spoils none |
| Comments.PostedMarkers | agent/gitlab/comments.py:30-33 | which written markers survive truncation, for every length |
| Comments.MergeRequest.UpsertCommentByMarker | agent/gitlab/comments.py:49-87 | replaces the first note carrying the marker or adds one, touching no other |
| Comments.UpsertCount | agent/gitlab/comments.py:49-87 | how the number of marked notes changes, for every list of notes |
| Comments.RunOfUpserts | agent/gitlab/comments.py:49-87 | a run of upserts that keep the marker equals its last one alone |
| Comments.OneNoteCarriesTheMarker | agent/gitlab/comments.py:49-87 | any number of them leaves one marked note if at most one was before |
| Comments.PostTwiceIff | agent/gitlab/comments.py:49-87 | posting twice leaves one note iff the posted note carries the marker |
| ReviewComments.FormatInlineComment | agent/scenes/auto_review/orchestrator.py:1485-1505 | visible lines, an empty line, run and key markers |
| ReviewComments.FormatSummaryComment | agent/scenes/auto_review/orchestrator.py:1508-1553 | overview, the two sections, an empty line, the four markers |
| ReviewComments.InlineTells | agent/scenes/auto_review/orchestrator.py:1485-1498 | the comment opens with severity and summary, shows the details, up to three pieces of evidence, and a fix if there is one |
| ReviewComments.SummaryTells | agent/scenes/auto_review/orchestrator.py:1508-1541 | the verdict line asks for changes iff there are confirmed findings, unless the review gives its own; the counts are right and every published finding has a line |
| ReviewComments.InlineRoundTripIff | agent/scenes/auto_review/orchestrator.py:1485-1505 | run id and key are read back iff both are non-empty and free of whitespace and `>` |
| ReviewComments.SummaryRoundTripIff | agent/scenes/auto_review/orchestrator.py:1508-1553 | run id, kind, head and fingerprint are read back under the same exact condition |
| ReviewComments.PostedKeyIff | agent/gitlab/comments.py:30-33 | a posted inline comment still tells its key iff it fits the limit or its visible text says that key |
| ReviewComments.PostedSummaryIff | agent/scenes/auto_review/orchestrator.py:1610-1641 | a posted summary still carries the marker upserts look for iff it fits, or that marker ends before the cut, or the visible text carries it |
| ReviewComments.OneSummaryNote | agent/scenes/auto_review/orchestrator.py:1610-1641 | any number of fitting summaries leaves one summary note if at most one was there |
| ReviewComments.CollectPrevious | agent/scenes/auto_review/orchestrator.py:696-703 | the loop collects every key, and head and fingerprint of the last comment naming a head |
| ReviewComments.PublishedKeyIsNotPublishedAgain | agent/scenes/auto_review/orchestrator.py:1456-1468 | a finding posted inline within the limit is in no list of a later review that sees the comment |
| ReviewComments.ReviewedHeadIsSkippedIff | agent/scenes/auto_review/orchestrator.py:772-779 | after a posted summary a review is skipped iff head and fingerprint are the same or the diff is blank, each with its reason |
| ActorSummaries.RuntimeByActor | agent/admin/router.py:940-940 | the last status of each actor wins |
| ActorSummaries.LatestRunByActor | agent/admin/router.py:941-944 | the first run of each actor wins |
| ActorSummaries.FivePassesSort | agent/admin/router.py:980-984 | the five stable passes permute the rows into the lexicographic order |
| ActorSummaries.BuildActorSummaries | agent/admin/router.py:934-985 | one row per actor known from a status or a run, in that order |
| ActorSummaries.TableIsUnique | agent/admin/router.py:946-985 | the table does not depend on the order in which the set of keys is walked |
| ActorSummaries.RowTells | agent/admin/router.py:946-979 | a row shows the counts, flag and lease of its actor's last status, or none, and its first run |

## Left out

- Times are integers; a lease expiry of 0, which the code treats as no lease, does not occur because clock readings are positive. Worker ids are non-empty, as the code makes them.
- JSON, SQL, threads and pydantic: each committed transaction is one atomic step, and stored events are read back as written.
- Handlers, agents, git, GitLab and the tracking service: a handler is a nondeterministic outcome, git's diff of a path and the publisher's result are parameters.
- Run records, journals, checkpoints and termination requests; whether a run is stopped is a step of the protocol. The two stores order and cap runs differently, so they are not compared there.
- The actor key of an event is a field of it; parsing dates, settings and the batching window are parameters.
- Worker.DrainMrActor: one drain with nobody interfering and one clock reading; the interleaved drains are those of ActorProtocol, to which UndisturbedDrains connects it.
- Worker.RunBatches: the loop of that drain, started under its own lease with nothing in flight, as acquire and restore leave it; what a lost lease or a changed batch does to one run is in RunBatch, and to a whole run in ActorProtocol.
- Worker.ResumeRuntimeProcessing: one pass with nobody interfering; interleaved polls are clients of ActorProtocol.
- PeriodicScheduling.MaybeEnqueueEvolutions: one pass with nobody interfering; overlapping passes are the polls of EvolutionSpacing, to which PassIsARun connects it. The branch lookup of a project is left out; the settings are parameters.
- PublishProtocol.PublishedAtMostOnce: a claim that outlives the stale age with a live holder is excluded by premise, as a late failure can then overwrite a completed receipt.
- PublishService.Service.Publish: stores without a claim operation are not modelled.
- NoLostWakeup.NoWakeupIsLost: faults and the unheard steps of processes with the no-op queue are excluded by premise, the latter exactly (`DisturbsIff`), and repaired by `PollRepairs`.
- LogicalQueue.EveryDepartureHasACause: without the timing premise an id accepted more than once is accounted for by id and not by entry, since acknowledgements compare ids; with heartbeats in time `EveryDepartureHasItsOwnCause` names the entry.
- Text is a sequence of code points; `\d` is read as ASCII digits, and lower-casing, slugs and the digest of a dedupe key are parameters.
- DiffPositions.PositionsAreRealIff: file header lines and hunk headings are single lines, and no file header line looks like a hunk header.
- Findings.SecondPassKeepsKeys: a category whose slug is empty can change on the second pass; only keys and their order are claimed.
- Open questions of a review are counted, not de-duplicated; recommendations and report texts are passed through.
- Comments.MergeRequest.UpsertCommentByMarker: a new note goes last in the list; ids, authors and the fallback note of inline comments are left out.
- Admin pages, sessions, webhooks, sandboxes, prompts, learning loops and settings coercion.
