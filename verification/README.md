# Rustodon durable work: a verified model

This project models, in Dafny, the parts of Rustodon whose correctness is an argument rather than a
glance: the PostgreSQL-backed work queue and its outbox, the stream-event log and its readers, exact
activity counting, attachment paths, container probing, the migrator checksum and the comparison of
SQL function bodies. `dafny verify dfyconfig.toml` checks everything.

## How the parts fit together

**Work queue** (`QueueModel`, `Queue`, `PollRepair`, `QueueInvariants`, `QueueRuns`, `QueueLeases`,
`RowHistory`, `OrderedEnqueue`, `OutboxHistory`, `DeliveryOrder`, `DeliveryRuns`, `QueueCancellation`,
`PollRepairProofs`, `PollIntents`). `QueueModel` holds the tables as one value
and what each statement does to them. The class in `Queue.dfy` has the source's methods. Where the
source hands PostgreSQL a query, the method here scans the tables itself, and each is proved to
produce exactly the table change its function describes. `QueueInvariants` shows that every statement is a legal evolution of the rows.
`QueueRuns` defines runs: any finite sequence of statements by any workers, with the clock moving in
between, and the histories of issued claims, acknowledgements, recordings and dispatches. A recording
draws its event id inside a caller's transaction and becomes visible when that commits, so ids and
commits may disagree. The theorems are about every state of every run that starts from well-formed
tables; empty tables are well-formed (the constructor proves it). `RowHistory`, `OrderedEnqueue` and
`OutboxHistory` say in the fields of a single job or event what each statement does to it and answers,
without the functions that compute it, and what follows over whole runs: when a row can be claimed, how
long a lease lasts, that no work is lost. `PollIntents` holds the repair pass against the key forms its
writers use. `DeliveryRuns` builds complete runs in which one of the two possible delivery orders fails.

**Stream events** (`StreamLog`, `StreamLogProofs`, `StreamStore`, `StreamWrites`, `StreamReplay`,
`StreamRouting`, `StreamHandoff`, `StreamKeys`). Ids are drawn when a row is inserted, rows become visible when the transaction commits, and other transactions draw from the
same sequence in between. The runs interleave staging, locking, inserting, committing, aborting,
pruning, subscribing and polling freely; only the ordering lock restricts them. A run follows one
reader at a time, which may subscribe at any state; readers do not affect the log.

**Activity** (`Activity`, `ActivityCache`). Bucket and member tables are class fields. A ghost history
remembers every recording, and a ghost list remembers every cache refresh.

**Paths, bytes, text** (`Bytes`, `Utf8`, `UrlPath`, `Paperclip`, `PaperclipProofs`, `PaperclipNames`,
`ContainerProbe`, `IsoBmff`, `Crc32`, `SqlNormalize`, `Decimal`, `Sets`). Strings are sequences of Unicode scalar
values, with an explicit strict UTF-8 codec where the source works on bytes; machine words are
bit-vectors or bounded integers with their overflow checks.

## Where the code promises less than it seems

- A repair pass does not always leave the poll generation covered. It fails exactly when it has to
  create a row while a malformed row holds the repair key and another live row holds the recovery key
  it derives (`ReconcileCovers` is an if-and-only-if, `RecoveryCanBeBlocked` is a concrete state).
- Deliveries of one pair follow the order of their commits exactly as long as no commit puts an event
  in line ahead of a waiting one, and the order of their ids exactly as long as no commit comes after
  a larger id was sent. Overlapping transactions can break either order (`LateCommitRun`,
  `OvertakingRun`), and so can recording a sent event again with `record_outbox_in`
  (`RerecordingRun`). Write-once recordings that commit in the order of their ids keep both.
- A delivery whose inbox is blank gets no ordering key, so the order theorems are about the others.
- A stream reader misses an event if and only if a prune takes one it had not read; such an event is
  never delivered later.
- An activity report over a number of days is exact as long as the tables are read before the first
  day of its window plus the retention; from that moment on it can miss a user (`LateReport`). For the
  half-year count that leaves 1,176,876 seconds, to the microsecond, however late in the day it is asked.
- Not every positive 64-bit id has an attachment path: those with 13, 14, 16, 17 or 19 digits have none
  (`PartitionShape`).
- Two refreshes of the cache are always a lifetime of the first apart exactly when the dates and
  results between them force that much waiting (`RefreshesAreSpacedExactly`). Staying on one date
  does; leaving a date and coming straight back does not.

## Model

| member | source | states |
|---|---|---|
| `QueueService.Queue.Claim` | src/jobs.rs:1290-1349 | takes the first, by due time and id, of the live, idle, due rows in the asked lanes that nothing holds back; finds none only when every due row waits for an older live row of its stream; generation and attempts grow by one and nothing else changes |
| `QueueService.Queue.CheckFences` | src/jobs.rs:1312-1329 | exactly the two ordering fences: a live predecessor, or any earlier live row of the same kind and key |
| `QueueService.Queue.Renew` | src/jobs.rs:1356-1379 | answers whether the caller owned the row, and if so moves the lease's end to the clock plus the asked time and changes nothing else |
| `QueueService.Queue.MergeArguments` | src/jobs.rs:1386-1410 | answers whether the caller owned the row; if so the fields a patch names get its values and all others, ordering included, stay; a patch that is no object is refused |
| `QueueService.Queue.Complete` | src/jobs.rs:1447-1470 | deletes the row exactly when the caller owned it, and says so |
| `QueueService.Queue.Retry` | src/jobs.rs:1477-1527 | reschedules an owned row, or buries it when its attempts are used up; lost exactly when the caller did not own it |
| `QueueService.Queue.DeadLetter` | src/jobs.rs:1534-1549 | buries an owned row at the current instant, and says so |
| `QueueService.Queue.Cancel` | src/jobs.rs:1557-1590 | deletes the live idle rows and pending events of one kind and key, leaves every other, and counts them |
| `QueueService.Queue.Enqueue` | src/jobs.rs:2197-2219 | answers with the live row of the kind and key, left as it was, or else with a new row that has everything asked for; the id is used up either way |
| `QueueService.Queue.EnqueueOrdered` | src/jobs.rs:2235-2289 | the new row is linked to the marker's row and due just after it or at its own time, whichever is later; the marker moves to the returned row |
| `QueueService.Queue.RecordOutbox` | src/jobs.rs:2375-2400 | inside a transaction, answers with the event it wrote, the one of that key or a new one; nothing is visible yet, and an invalid specification changes nothing |
| `QueueService.Queue.RecordOutboxOnce` | src/jobs.rs:2410-2436 | inside a transaction, answers true exactly when no event of the kind and key exists, committed or not, and then draws one with the whole specification; else no event changes |
| `QueueService.Queue.Commit` | src/jobs.rs:2375-2436 | everything the transaction recorded becomes visible at once, and nothing of any other |
| `QueueService.Queue.DispatchOutbox` | src/jobs.rs:1597-1657 | selects the smallest pending events that no rewrite, live key or earlier delivery on the route holds up, and converts all of them or, on a malformed one, none |
| `QueueService.Queue.ReconcilePollExpiration` | src/jobs.rs:1008-1183 | surveys the candidate keys and performs the one decided repair action; PollIntents says which rows that means |
| `QueueService.Queue.RecordPollEffect` | src/jobs.rs:354-377 | records an outcome once; a different second outcome is refused |
| `QueueInvariants.EvolutionKeepsOrder` | src/jobs.rs:1312-1340 | no legal change can put a live row of any keyed stream before one that was ever claimed |
| `QueueRuns.StepEvolves` | src/jobs.rs:1290-1657 | every statement keeps the tables well formed: unique live keys, links to smaller ids, claimed rows oldest in their stream |
| `QueueInvariants.EnqueueOrderedEvolves` | src/jobs.rs:2235-2289 | an ordered enqueue keeps every link pointing to a smaller id even when it meets an existing row |
| `QueueLeases.RunKeepsLeases` | src/jobs.rs:1330-1340 | in every state of every run a held claim's attempt snapshot equals the row's, and spent tokens stay spent |
| `QueueLeases.LeaseNeverRevives` | src/jobs.rs:1356-1379 | once a claim's lease is not valid it never is again |
| `QueueLeases.TokensAreUnique` | src/jobs.rs:1330-1340 | no (id, generation) is issued twice or acknowledged twice |
| `QueueLeases.RetryBuriesExactlyWhenExhausted` | src/jobs.rs:1477-1527 | a retry is lost, buries or reschedules exactly by lease validity and by the row's own attempts |
| `QueueLeases.StreamsRunInOrder` | src/jobs.rs:1290-1349 | in every run and for every kind: claimed rows are oldest alive in their stream, no stream has two live leases, and its jobs finish in increasing id order |
| `QueueLeases.WaitsPointDown` | src/jobs.rs:1312-1328 | a row only ever waits for a live row with a smaller id |
| `QueueLeases.EveryWaitEnds` | src/jobs.rs:1312-1328 | following blockers from any live row ends at a live row that passes both fences |
| `QueueLeases.OldestIsClaimable` | src/jobs.rs:1312-1328 | the lowest live row is claimable exactly when it is due and unleased |
| `RowHistory.StepAccounts` | src/jobs.rs:1290-1590 | which statement may change which field of a row, under which condition and to what; every other field of every row stays |
| `RowHistory.ClaimTakesDueRow` | src/jobs.rs:1306-1329 | over runs, a claim takes only a live, idle row that is due in an asked lane and held back by no other |
| `RowHistory.BackoffIsHonoured` | src/jobs.rs:1503-1516 | over runs, a row put back until some time is claimed by no claim before the clock reaches it; no repair pass can move it either |
| `RowHistory.LeaseLasts` | src/jobs.rs:1330-1379 | over runs, a lease that a claim or an accepted renewal gave at `t` for `ms` and whose token is not presented again is held exactly while the clock is below `t + ms` |
| `RowHistory.NoJobIsLost` | src/jobs.rs:1447-1590 | over runs, a row keeps its lane, kind, keys and limits and is there until its owner completes it or its key is cancelled while it is idle; a dead row never changes |
| `RowHistory.DeathIsDeserved` | src/jobs.rs:1477-1549 | a row dies only when its owner dead-letters it or retries it with no attempt left, at the instant recorded in it |
| `RowHistory.MergeSticks` | src/jobs.rs:1386-1410 | a merge's values stay until the next merge of the row |
| `RowHistory.HistoriesAreTrue` | src/jobs.rs:1330-1340 | a worker is handed the claimed row as it stands afterwards, and exactly the acknowledgements by owners are written down |
| `RowHistory.AnswersTellOwnership` | src/jobs.rs:1356-1549 | renewals, merges, completions and dead-letters answer true exactly when the caller owned the row |
| `RowHistory.DueRowsAreHeldBack` | src/jobs.rs:1312-1329 | a due row that is no candidate has an older live row of its stream before it |
| `RowHistory.QueueIsNeverStuck` | src/jobs.rs:1312-1329 | when a claim over all lanes finds nothing, every live row waits in the end for one that is leased or not yet due |
| `OrderedEnqueue.EnqueueAnswers` | src/jobs.rs:2197-2219 | the answer names a live row of the kind and key, the old one untouched or a new one as specified |
| `OrderedEnqueue.OrderedAnswers` | src/jobs.rs:2235-2289 | link, due time and marker of an ordered enqueue, for a new row and for one that was there |
| `OrderedEnqueue.StreamsAreSpaced` | src/jobs.rs:2265-2289 | over runs, rows appended to a stream get larger ids and strictly later due times as long as its marker is not pruned |
| `OrderedEnqueue.DispatchAnswers` | src/jobs.rs:1625-1655 | a dispatched delivery is appended to the stream of its account and trimmed inbox, any other event becomes a plain job, and the event is marked |
| `DeliveryOrder.DispatchTakesOldest` | src/jobs.rs:1603-1619 | a dispatch takes a pair's oldest pending event only |
| `DeliveryOrder.DeliveriesFinishInRecordingOrder` | src/jobs.rs:1597-1657 | if no commit puts an event of the pair ahead of a waiting one, the pair's events become jobs and those jobs finish in the order of their commits, under any interleaving |
| `DeliveryOrder.OvertakingBreaksRecordingOrder` | src/jobs.rs:1608-1615 | after a commit that does, every continuation that sends both events sends the later recorded one first |
| `DeliveryOrder.DeliveriesFinishInDrawOrder` | src/jobs.rs:1597-1657 | if no commit puts an event in line at or below one already sent, the pair's jobs are made and finish in the order of their event ids |
| `DeliveryOrder.LatenessBreaksDrawOrder` | src/jobs.rs:2375-2400 | after a commit that does, that order is broken as soon as the event is sent |
| `DeliveryOrder.WriteOnceInStepKeepsBothOrders` | src/jobs.rs:2402-2436 | write-once recordings none of which commits while a smaller id of the pair is uncommitted keep both orders |
| `DeliveryRuns.LateCommitRun` | src/jobs.rs:2410-2436 | a complete run of two overlapping write-once recordings whose jobs finish against the order of their ids |
| `DeliveryRuns.OvertakingRun` | src/jobs.rs:2410-2436 | a complete run of two overlapping write-once recordings whose jobs finish against the order of their commits |
| `DeliveryRuns.RerecordingRun` | src/jobs.rs:2375-2400 | a complete run in which a sent event, recorded again, overtakes one recorded in between |
| `QueueInvariants.DispatchConverts` | src/jobs.rs:1597-1657 | as many new jobs as marked events, each with its event's lane, key, arguments and attempts, due no earlier; nothing else changes |
| `QueueInvariants.DispatchFailsOnMalformed` | src/jobs.rs:1626-1631 | a dispatch fails if and only if some selected payload is malformed |
| `QueueCancellation.OutboxSpecUndoesRecording` | src/jobs.rs:2863-2897 | rebuilding a job from a recorded payload gives back exactly the valid specifications |
| `QueueCancellation.CancelLeavesOnlyLeases` | src/jobs.rs:1557-1590 | after a cancellation only leased rows hold the key, and the key is absent exactly when no lease was live |
| `QueueCancellation.AbsentUntilIntroduced` | src/jobs.rs:1557-1657 | a cancelled key stays absent over any run until some statement introduces it again |
| `OutboxHistory.RecordOnceTells` | src/jobs.rs:2410-2436 | a write-once recording answers true exactly when the key is new, draws one event with the whole specification, and otherwise only uses up an id |
| `OutboxHistory.RecordTells` | src/jobs.rs:2375-2400 | a rearming recording answers with the event it wrote: the one of that key, or else a new one |
| `OutboxHistory.OnceIsOnce` | src/jobs.rs:2402-2436 | over runs, after a recording of a key any later write-once recording of it answers false, until the key is cancelled or the recording transaction aborts |
| `OutboxHistory.NoEventIsLost` | src/jobs.rs:1557-1657 | over runs, a committed pending event waits, with its kind and key, until a dispatch turns it into a job of that kind and key or its key is cancelled |
| `OutboxHistory.SelectableMeansFree` | src/jobs.rs:1603-1619 | an event can be selected exactly when it is pending and no rewrite, stream kind, live key or earlier delivery on its route holds it up |
| `OutboxHistory.MalformedMeans` | src/jobs.rs:2863-2897 | a stored event cannot become a job exactly when it has no payload, no such lane, or attempts outside 1 to 2^31 - 1 |
| `OutboxHistory.TrimStrips` | src/jobs.rs:2326-2327 | trimming takes the white space at both ends and nothing else |
| `PollRepairProofs.ReconcileCovers` | src/jobs.rs:1008-1183 | after a pass the generation is covered if and only if the pass was not blocked from creating its row |
| `PollRepairProofs.RecoveryCanBeBlocked` | src/jobs.rs:1120-1183 | a state with two malformed rows in which a pass leaves the generation uncovered |
| `PollRepairProofs.ReconcileTwice` | src/jobs.rs:195-222 | an immediate second pass changes no row and reports the settled verdict |
| `PollRepairProofs.ReconcileFrame` | src/jobs.rs:1008-1183 | a pass never deletes a row, never moves work later and never touches leased, attempted or dead rows |
| `PollRepairProofs.FirstOutcomeWins` | src/jobs.rs:354-377 | a first outcome is accepted, stays, and alone is accepted again; a refusal changes nothing |
| `PollIntents.WritersFile` | src/jobs.rs:380-400 | whatever a writer files for a generation is under a form the pass knows, and concerns that generation |
| `PollIntents.LiveWorkIsFound` | src/jobs.rs:402-440 | live work under any of the six key forms ever written is found, and the pass adds nothing beside it |
| `PollIntents.PendingWorkIsFound` | src/jobs.rs:1075-1092 | so is pending work |
| `PollIntents.OnlyWorkIsMoved` | src/jobs.rs:195-222 | a generation's only live work is moved exactly when it is late, untried and idle, to five minutes past the expiry under a reschedule form and else to the target; otherwise nothing changes |
| `PollIntents.OnlyPendingIsMoved` | src/jobs.rs:195-222 | the same for the only pending work |
| `PollIntents.MissingWorkIsCreated` | src/jobs.rs:1166-1179 | with no work anywhere the pass creates what a repairing writer files, due at the target, past a squatter under the recovery key |
| `PollIntents.EarlierFormWins` | src/jobs.rs:1093-1112 | of work live under two forms only the one whose form comes first can be moved |
| `PollIntents.SettledGenerations` | src/jobs.rs:1060-1074 | a generation with an outcome, or older than the activation, is only ever marked |
| `PollIntents.UnsoundIsRefused` | src/jobs.rs:1016-1018 | a bad poll id and a malformed marker are refused, and nothing is touched |
| `StreamStore.Store.Stage` | src/jobs.rs:2674-2692 | staging keeps the first draft of each new key, in order, and nothing else |
| `StreamStore.Store.FlushStagedEvents` | src/jobs.rs:2705-2731 | takes the order lock, inserts everything staged in staging order and clears the stage |
| `StreamStore.Store.Flush` | src/jobs.rs:2733-2750 | flushes staged work if there is any, else inserts directly and returns the id of each key's row |
| `StreamStore.Store.Insert` | src/jobs.rs:2762-2788 | inserts the draft's key and payload under the next id at the current time, or finds the row that already has the key |
| `StreamStore.Store.Cursor` | src/jobs.rs:1687-1695 | the greatest visible id, or zero |
| `StreamStore.Store.ReadAfter` | src/jobs.rs:1763-1787 | the smallest visible ids after the cursor, in order, up to the limit; refuses bad bounds |
| `StreamStore.Store.Prune` | src/jobs.rs:1718-1756 | only rows within the age stay, at most the bound, and one of those goes only when newer ones fill it; returns the cursor just before them |
| `StreamWrites.StagingKeepsFirsts` | src/jobs.rs:2674-2692 | exactly the first draft of each new key is staged, in order; every draft uses up an id |
| `StreamWrites.InsertingKeepsDrafts` | src/jobs.rs:2762-2788 | exactly the first draft of each key new to the log becomes an event, with its payload, an id of its own in draft order and the current time |
| `StreamWrites.FlushEmptiesStage` | src/jobs.rs:2705-2731 | a flush inserts what is staged and leaves nothing staged |
| `StreamWrites.StagedIsDelivered` | src/jobs.rs:2705-2750 | over runs, what a transaction staged, flushed and committed is in the log's history under its key |
| `StreamLogProofs.RunKeepsLog` | src/jobs.rs:2705-2750 | in every run the visible rows are a suffix of the commit history, ordered by id and creation time |
| `StreamLogProofs.NoLateCommit` | src/jobs.rs:2833-2845 | no event becomes visible with an id or time below one visible earlier |
| `StreamLogProofs.PollReadsOn` | src/jobs.rs:1763-1787 | a cursor read yields exactly the next stretch of the history, and a short one reaches its end |
| `StreamLogProofs.SubscribeStartsReader` | src/jobs.rs:1687-1695 | subscribing at the newest visible id, or at a prune's cursor, starts a reader at the end of the history, or at the oldest retained event |
| `StreamLogProofs.ReadersMissNothing` | src/jobs.rs:1763-1787 | a reader that subscribes at any state of any run, and that prunes spare, is handed the history from there without gap or repetition, and the rest stays readable |
| `StreamLogProofs.ShortPollCatchesUp` | src/jobs.rs:1763-1787 | after a read below its limit a reader has every event committed since it started |
| `StreamLogProofs.ReadersMissExactlyWhatPrunesTake` | src/jobs.rs:1730-1748 | a reader has missed an event if and only if some prune since its subscription did not spare it |
| `StreamLogProofs.MissedForGood` | src/jobs.rs:1730-1748 | an event missed is never delivered afterwards |
| `StreamLogProofs.DirectFlushIsSteps` | src/jobs.rs:2744-2749 | a direct flush is the lock step and then one insert step for each event |
| `StreamLogProofs.StagedFlushIsSteps` | src/jobs.rs:2705-2731 | a staged flush is the staging steps, the lock step and one statement for all that is staged |
| `StreamLogProofs.PruneKeepsNewest` | src/jobs.rs:1718-1756 | what is too old goes; of the rest at most the bound stays, fewer only if all do, and what goes is older |
| `StreamLogProofs.ReadAfterPrune` | src/jobs.rs:1718-1756 | reading after a prune's cursor yields exactly the retained rows |
| `StreamReplay.ReplayMembers` | src/jobs.rs:1846-1888 | an event is replayed if and only if it is a routed newer one, or an older delete or transition with fewer than 128 of its class behind it |
| `StreamReplay.ReplayIsOrdered` | src/jobs.rs:1890-1895 | replayed ids strictly increase |
| `StreamReplay.ReplayIsBounded` | src/jobs.rs:1877-1888 | older deletes and transitions are each at most 128, and nothing older creates |
| `StreamReplay.ReplayIgnoresOtherTraffic` | src/jobs.rs:1808-1809 | two logs with the same routed events replay alike |
| `StreamReplay.EditsNeverDisplaceDeletes` | src/jobs.rs:1809-1811 | whatever else a log gains, the same deletes are replayed |
| `StreamRouting.RoutesAgree` | src/jobs.rs:1849-1866 | what each of the nine streams shows, in the facts a status carries |
| `StreamRouting.ReplayHolds` | src/jobs.rs:1877-1888 | an event is replayed exactly when it is routed, not beyond the bound, and newer than `create_after` or among the last 128 older deletes or edits |
| `StreamRouting.ListIdReads` | src/jobs.rs:1888-1888 | a list parameter reads as the number it prints, and as zero beyond 64 bits |
| `StreamStore.Store.Replay` | src/jobs.rs:1819-1899 | refuses bad bounds; else returns, in id order, exactly the visible events shown on the stream before or after: all newer ones up to the bound, the last 128 older deletes and the last 128 older edits |
| `StreamHandoff.HandoffIsLossless` | src/jobs.rs:1811-1812 | over whole runs, with `create_after` a cursor read at any earlier moment, a replay and the polls after it hand over each routed event above it exactly once, in order, from the oldest row found up to the reader's position; also when a prune has emptied the log in between |
| `StreamHandoff.HandoffAtAnyCursors` | src/jobs.rs:1819-1836 | the same for any `create_after` at all, above the smaller of the two cursors |
| `StreamHandoff.FirstSubscriptionHearsEverything` | src/web/stream_socket.rs:374-384 | a connection's first subscription is handed all routed events committed since the connection was made |
| `StreamKeys.KeysIdentify` | src/streaming.rs:21-39 | the three key printers are injective for all integers and event names, and never collide with each other |
| `Activity.Buckets.RecordMember` | src/activity.rs:107-159 | renews the day's bucket from the write time, clears an expired generation, adds the user, touches no other day |
| `Activity.Buckets.Aggregate` | src/activity.rs:180-214 | the distinct users with a row in an unexpired bucket on the 28 and 168 days before today, and for each count that is timely all users ever recorded on them |
| `Activity.Buckets.Prune` | src/activity.rs:309-341 | removes at most 1,000 rows, of expired buckets only, and buckets only once empty; a pass below its limits leaves no expired bucket |
| `Activity.Buckets.OldestExpired` | src/activity.rs:314-320 | the first hundred buckets that expired, by expiry and then day |
| `Activity.Buckets.DeleteMembers` | src/activity.rs:322-326 | a day's smallest users, up to the limit |
| `Activity.ReportIsExact` | src/activity.rs:190-214 | a report read before the first day of its window plus the retention counts exactly what was recorded |
| `Activity.LateReport` | src/activity.rs:190-214 | for every report read at or after that moment there is a run after which it misses a user |
| `Activity.TimelyLongEnough` | src/activity.rs:5-6 | a report is timely whatever the time of day exactly up to 1,176,876 seconds after its instant, and a monthly one up to 13,272,876 |
| `ActivityCache.Cache.Get` | src/activity.rs:260-298 | every answer is fresh for its date, just loaded, a success at most a day old, or zero when there is none; the last refresh is reused exactly on its own date for a minute, or five seconds after a failure |
| `ActivityCache.RefreshesAreSpacedExactly` | src/activity.rs:268-297 | two refreshes are a lifetime of the first apart at all possible ticks if and only if the dates and results between them force that much waiting |
| `ActivityCache.Realize` | src/activity.rs:260-298 | a cache really goes through the tightest schedule of any dates and results |
| `ActivityCache.RefreshesOfOneDateAreSpaced` | src/activity.rs:283-297 | while refreshes stay on one date they are a minute apart after a success and five seconds after a failure |
| `ActivityCache.LeavingForcesNothing` | src/activity.rs:284-286 | a date left and at once returned to can be refreshed again at once |
| `ActivityCache.DetourForcesTheWait` | src/activity.rs:284-293 | a date left for two successes on another one cannot be refreshed again within the minute |
| `ActivityCache.LatestSuccessIs` | src/activity.rs:231-238 | the fallback is the last successful refresh of the history |
| `PaperclipProofs.PrintedPathsParse` | src/paperclip.rs:2205-2214 | every printable path, URL-encoded, parses back to its attachment, id and path and authorizes its record |
| `PaperclipProofs.AuthorizedRecordsMatch` | src/paperclip.rs:2704-2709 | a parsed path authorizes only records with its own attachment and id |
| `PaperclipProofs.ParsedIsLayout` | src/paperclip.rs:2734-2792 | only components in the printer's layout parse |
| `PaperclipProofs.PartitionsIdentify` | src/paperclip.rs:2795-2817 | two ids never share a partition |
| `PaperclipProofs.LayoutsIdentify` | src/paperclip.rs:2205-2214 | the path layout determines cache flag, attachment, groups, style and file name |
| `PaperclipProofs.PrintedStyleIsPermitted` | src/paperclip.rs:2236-2278 | every style the printer serves is one the parser permits, with a safe file name |
| `PaperclipProofs.ComponentReadsBack` | src/paperclip.rs:2885-2898 | a safe component survives percent-encoding and strict decoding |
| `PaperclipNames.PartitionShape` | src/paperclip.rs:2795-2817 | exactly the ids of up to 12, 15 or 18 digits have a partition, of three to six groups that spell them |
| `PaperclipNames.StylesAreServed` | src/paperclip.rs:2236-2278 | which file each style of each attachment is served from |
| `PaperclipNames.PathSays` | src/paperclip.rs:2205-2234 | when a record has a path for a style, and what the path says |
| `PaperclipNames.ParsedPathIs` | src/paperclip.rs:2734-2792 | whatever parses has valid escapes and spells the components of a path, with the attachment and id that come out |
| `PaperclipNames.PathsParse` | src/paperclip.rs:2734-2792 | and whatever does so parses |
| `PaperclipNames.AuthorizedPathsAreServed` | src/paperclip.rs:2704-2709 | a parsed path authorizes exactly the records with its attachment, id and cache place that serve its style from its file |
| `UrlPath.EncodedPath` | src/paperclip.rs:2820-2825 | encoding a path keeps its components apart and validly escaped |
| `UrlPath.EscapeReads` | src/paperclip.rs:49-65 | percent-decoding undoes percent-encoding for every byte string |
| `UrlPath.ValidPercentEncoding` | src/paperclip.rs:2900-2912 | accepts exactly texts in which every percent sign is followed by two hexadecimal digits |
| `Utf8.DecodesBack` | src/paperclip.rs:2885-2891 | strict decoding undoes encoding for every text |
| `Utf8.EncodesBack` | src/paperclip.rs:2885-2891 | what decodes is exactly what encoding writes |
| `ContainerProbe.EbmlVint` | src/paperclip.rs:1533-1546 | finds the marker, folds the bytes without ever overflowing, and equals the integer's definition |
| `ContainerProbe.EbmlDocumentType` | src/paperclip.rs:1505-1531 | terminates and equals the walk over top-level elements |
| `ContainerProbe.BuiltHeaderReads` | src/paperclip.rs:1505-1531 | every well-formed header yields the payload of its first top-level document type |
| `ContainerProbe.WalkIsSound` | src/paperclip.rs:1515-1530 | whatever the walk returns stands behind whole top-level elements that are not document types |
| `ContainerProbe.DocTypeIsSound` | src/paperclip.rs:1505-1531 | whatever is returned for an input, the input begins with a header element and the document type stands at the top level inside it |
| `ContainerProbe.RetainedIsInjective` | src/paperclip.rs:1533-1546 | marker-retaining values identify their bytes across lengths |
| `ContainerProbe.DataIsLowBits` | src/paperclip.rs:1533-1546 | an integer's data are its low seven bits a byte |
| `ContainerProbe.EveryValueHasAVint` | src/paperclip.rs:1533-1546 | every value has an encoding in each length with room for it |
| `IsoBmff.Brands` | src/paperclip.rs:1485-1503 | terminates without overflow and equals the walk over boxes |
| `IsoBmff.BrandsAreRead` | src/paperclip.rs:1485-1503 | a file-type box within the search limit yields its major and then its compatible brands |
| `IsoBmff.BrandsAreSound` | src/paperclip.rs:1485-1503 | brands are only ever read from a top-level file-type box behind whole other boxes |
| `Crc32.Compute` | src/operational_schema.rs:919-927 | the bit-by-bit loop computes the table-driven CRC of section 8 of RFC 1952 |
| `Crc32.CrcMatchesTable` | src/operational_schema.rs:919-927 | both definitions agree on every byte string |
| `Crc32.StepsAreLinear` | src/operational_schema.rs:922-924 | the inner loop is linear over exclusive-or |
| `Crc32.CrcContinues` | src/operational_schema.rs:919-927 | a checksum can be continued from the checksum of a prefix |
| `Crc32.BurstsAreDetected` | src/operational_schema.rs:919-927 | texts that differ only inside four adjacent bytes never share a checksum |
| `SqlNormalize.StripSqlLineComments` | src/preflight.rs:1988-2013 | the lookahead scanner equals the three-mode definition |
| `SqlNormalize.RemoveSqlWhitespace` | src/preflight.rs:1969-1986 | the lookahead scanner equals the quote-toggling definition |
| `SqlNormalize.NormalizeBody` | src/preflight.rs:1955-1967 | comment stripping, whitespace removal and salt replacement in sequence |
| `SqlNormalize.SqueezeKeeps` | src/preflight.rs:1969-1986 | exactly quotes, non-blanks and characters behind an odd number of quotes stay |
| `SqlNormalize.SqueezeTwice` | src/preflight.rs:1969-1986 | removing whitespace twice is removing it once |
| `SqlNormalize.DashlessIsKept` | src/preflight.rs:1988-2013 | text without two dashes side by side stays as it is, and ends inside a literal behind an odd number of quotes |
| `SqlNormalize.CommentIsStripped` | src/preflight.rs:1999-2006 | of a line comment in code only the line end stays |
| `SqlNormalize.LiteralIsNotStripped` | src/preflight.rs:1988-2013 | dashes inside a literal open no comment |
| `SqlNormalize.NormalKeepsLiterals` | src/preflight.rs:1955-2013 | both scanners together leave every literal as it was |
| `SqlNormalize.WhitespaceIsIgnored` | src/preflight.rs:1955-1986 | blanks outside literals and comments that part no two dashes change nothing |
| `SqlNormalize.CommentsAreIgnored` | src/preflight.rs:1955-2013 | a line comment not glued to a dash changes nothing |
| `SqlNormalize.SaltsAreInterchangeable` | src/preflight.rs:1955-1967 | swapping nonempty quote-free salts gives the same accepted result |
| `SqlNormalize.OnlySaltsDiffer` | src/preflight.rs:1955-1967 | of two function bodies, the first of which is accepted, both give the same result if and only if without comments and blanks they differ at most in the salt |

## Left out

- Idempotency keys, `enqueue_ordered_once`, heartbeats, readiness, dead-letter listing and queue counts: bookkeeping around the modelled statements.
- Size limits, error texts and `updated_at`: they would only add single-branch facts.
- `SKIP LOCKED`, statement timeouts and lock waits: a claim takes the best candidate and a dispatch takes any eligible rows in id order; a method that needs the order lock, or a row or key another transaction holds, is called once it is free.
- Digests and hash collisions: ordering keys are given identifiers, and the delivery digest is its (source, inbox) pair.
- Job ids are drawn and committed in one step. For ordered jobs the marker row's lock, held until commit, makes that exact for each stream; other jobs have no order to keep.
- `initialize_job_arguments`: it differs from the modelled merge only in letting existing values win.
- `DeliveryOrder.DispatchTakesOldest`: source account ids are compared as numbers, not as JSON text, so two spellings of one number are one source.
- Pruning of ordering markers and idempotency keys: code outside this model.
- Deletions of delivery, poll and account jobs by other columns than the key, and the quote delivery's extension of its own lease: variants of the modelled cancel and renew written elsewhere (src/mastodon/write_repository.rs, src/worker/delivery.rs).
- `Activity.Buckets.RecordMember`: the retry when a cleanup deletes the bucket between insert and lock is not modelled, because each call is one atomic step; the two clock readings are parameters.
- `Activity.Buckets.Prune`: buckets skipped because a recording holds their lock are not modelled.
- `ActivityCache.Cache.Get`: the refresh is a parameter that brings counts or nothing; cancellation in mid-flight is not modelled.
- `StreamStore.Store.Stage`: waiting on another transaction's uncommitted draft of the same key is not modelled.
- `stream_replay_events` and `stream_replay_events_with_limits`: simpler relatives of the modelled replay query.
- Subscription parsing, scopes and hashtag normalization: the replay query takes the canonical parameter.
- `PaperclipProofs.PrintedPathsParse`: opening files, following links and the filesystem layer are not part of this model.
- Unknown-size EBML elements have no meaning of their own here, as in the source: an all-ones size is an ordinary number.
- Skew between the process clock and the database clock: `Activity.Buckets.Aggregate` relates them by its timeliness condition and nothing else does.
