# Log delivery engine: a verified model

The program polls the log history of a hosting platform and forwards every line
to one or more sinks. In poll mode each source (an environment's deploy logs, or
one deployment's HTTP logs) has a poller and a stored cursor. The poller works in
rounds, each with a horizon up to which the history is taken to be settled. Page
by page the lines go to a queue of every sink's worker; the cursor stays where it
is until each worker has answered that nothing of the page was dropped, and the
store is written after it. The history can only be queried from a timestamp on,
so a page begins with lines that were already delivered; the cursor counts the
content hashes seen at its timestamp to tell them apart.

This project models that engine in Dafny and proves what it is for.

- **One source over whole runs** (`PollSystem`, `PollSafety`, `PollTheorems`):
  a transition system in which the poller, the source, the sinks, the deploy
  poller it is held close to, the cursor store and crashes take interleaved
  steps. In every reachable state nothing is lost silently.
- **The polling code** (`CursorCell`, `PollFeed`, `Poller`, `RoundProofs`,
  `Pacing`): imperative methods with the loops of `pollOnce` and `runPoller`.
  Each call to the outside first lets anything happen that may happen. A ghost
  state shows that the code only takes the steps of `PollSystem`; on top of that
  a round is exact and ends, however the source grows. `Feed` keeps a journal of
  what was handed to the workers, which calls failed, every query and wait with
  the budget it is for, every look at floor and gate, and whether the context has
  been found to have ended; what the methods promise is stated on that journal.
- **The sink worker** (`WorkerProtocol`, `WorkerSafety`, `WorkerTheorems`): any
  number of producers, one batching consumer, three counters and a generation
  channel, under every interleaving. `SinkWorker` is the worker's own code.
- **All of it together** (`Delivery`): one poller, its workers and any number of
  other producers as one system. The poller marks, queues, waits and moves its
  cursor on the workers' answers alone; that every sink has then accepted the
  page is derived, and with it no silent loss from end to end. `HandedOut` bounds
  it from above: without failures and restarts nothing is sent twice. `NeverStuck`
  shows that a page in flight can always be taken on. `KindPairs` runs a deploy
  poller beside an HTTP poller that gates on it.
- **The manager** (`Manager`), **the cursor store** (`CursorStore`), **the
  request retries** (`Client`, `Backoff`) and **the Loki grouping**
  (`LokiLabels`, `LokiKeys`, `LokiShapes`, `LokiPush`). `Context` is the
  cancellation that workers and client look at.

Modelling choices. Time is an integer number of nanoseconds. A line is its
timestamp and the hash of its content; the service allowlist is a predicate on
the hash. The source is a finite multiset of the lines that have a timestamp; it
only grows, a line appearing no later than `settle` after its timestamp. What a
history query returns is any reply of raw lines whose parsable part meets the
anchor contract of `internal/railway/logs.go:179-183`, with ties in any order,
another order each time. Hash counts are multisets, so an absent hash and a zero
count are the same. The clock never runs backwards. Answers from outside
(replies, sink verdicts, rate-limit headers, cancellation, file errors) are
arbitrary.

Three remarks on the code.

- The comment at `internal/logs/cursor.go:15-18` says that every line up to and
  including TS has been written; between two pages only the lines before TS have,
  plus exactly those counted in Seen at TS, and that is the invariant proved here.
  `PollTheorems.CursorTimestampIsOpen` is a reachable state with a line at TS that
  no sink was given.
- A fetch drops lines whose timestamp does not parse before the page length is
  looked at (`internal/logs/poll.go:122-126`, `internal/logs/poll.go:336`), so a
  full reply can pass for a short page. The model keeps that, as a window of kind
  `Cut`, which the code has no record of. `RawFetch.ShortPageHasAll` says exactly
  which short pages are complete, `PollTheorems.CutReplyLosesALine` gives a reply
  that loses a line for good, and `PollTheorems.WholeRepliesCutNothing` shows that
  without such replies there is no such window.
- A NUL in a record's name can make two streams one. `LokiShapes.NulJoinsStreams`
  gives two records, and `LokiShapes.KeysFaithfulIff` the exact condition.

## Model

| member | source | states |
|---|---|---|
| `LogLines.SortByTsSorts` | internal/logs/poll.go:308 | the sorted page holds the lines of the page, in timestamp order |
| `LogLines.SortByTsIsStable` | internal/logs/poll.go:308 | sorting keeps the page order of lines with equal timestamps |
| `RawFetch.ParsedKeepsLines` | internal/logs/poll.go:113-130 | a page holds each line as often as the reply holds an entry with its timestamp and hash, and nothing of an entry whose timestamp does not parse |
| `RawFetch.ShortPageHasAll` | internal/logs/poll.go:113-130 | a page below the page size holds every source line from the anchor to the horizon, whatever the source holds, if and only if the reply itself was short or the page reaches the horizon (or there is nothing before it) |
| `CursorCells.CursorCell.Advance` | internal/logs/cursor.go:25-35 | a later line replaces timestamp and counts, any other line adds one count for its hash |
| `CursorCells.CursorCell.Clone` | internal/logs/cursor.go:37-40 | a fresh cursor of equal value, so changing one leaves the other alone |
| `CursorCells.WalkIgnores` | internal/logs/poll.go:315-317 | a line before the cursor leaves the scan of the page as it is |
| `CursorCells.WalkSkips` | internal/logs/poll.go:322-325 | a line at the cursor with counts left is one already delivered: it uses up one count and nothing else changes |
| `CursorCells.WalkSends` | internal/logs/poll.go:326-330 | any other line up to the horizon is owed: sending it and advancing the next cursor is the scan of the longer page |
| `CursorCells.WalkStops` | internal/logs/poll.go:318-321 | stopping at the first line past the horizon is the scan of the whole page |
| `PollFeed.Feed.Fetch` | internal/logs/poll.go:304-307 | a query either fails and changes nothing of the round, or puts in flight the parsable lines of a reply that the service may give for the cursor at that moment; either way it goes on record with the budget last read |
| `PollFeed.Feed.SleepBetweenPages` | internal/logs/poll.go:296-303 | the wait goes on record with the budget it is for; it ends early exactly if the context is found to have ended |
| `PollFeed.Feed.Marks` | internal/logs/poll.go:404-410 | the marks are no earlier than what each sink had accepted before |
| `PollFeed.Feed.DispatchWait` | internal/logs/poll.go:390-401 | an in-scope line is queued to every worker, any other line to none; an error adds nothing to what every worker holds |
| `PollFeed.Feed.WaitWritten` | internal/logs/poll.go:414-425 | success means every worker accepted what was queued since the marks, on top of what it had accepted at them |
| `PollFeed.Feed.SleepBetweenRounds` | internal/logs/poll.go:237-260 | the wait lasts as long as asked and goes on record with the budget last read, whether the source is retired, and whether since the wait before the cursor passed lines without a failed call |
| `PollFeed.Feed.ReadFloor` | internal/logs/poll.go:147-153 | the floor is the deploy position at that moment less the lag limit, if a deploy poller is registered; the look goes on record |
| `PollFeed.Feed.ReadGate` | internal/logs/poll.go:140-146 | the gate is the deploy position at that moment plus the skew limit, if a deploy poller is registered; the look goes on record |
| `PollFeed.Feed.Save` | internal/logs/poll.go:352-354 | the stored cursor becomes the given one, or none if its timestamp is more than the pruning age before now; the file follows unless an error is reported |
| `PollFeed.Feed.Load` | internal/logs/poll.go:211-216 | the live cursor is the stored one, or the poller's start |
| `Pollers.Poller.SetCursor` | internal/logs/poll.go:90-98 | the published positions never decrease and the last one is the position read by others |
| `Pollers.WalkPage` | internal/logs/poll.go:310-331 | the loop over the page computes its scan: what is sent is what is owed, copy by copy, what is queued is the in-scope part of it and nothing else, on error as well, and the next cursor counts exactly the lines at its timestamp |
| `Pollers.PageAcknowledged` | internal/logs/poll.go:412-425 | marks taken after the query plus acknowledgement by every worker give acceptance of the page on top of what each sink had at the query |
| `Pollers.SkipStale` | internal/logs/poll.go:268-276 | the settle limit is a moment since the call less `settle`; a cursor more than the catch-up limit before that moment moves to exactly that limit, the gap recorded and counted, and no other cursor moves |
| `Pollers.SkipLagging` | internal/logs/poll.go:277-285 | an HTTP cursor behind the floor moves to it, the gap recorded and counted, and no other cursor moves |
| `Pollers.SkipBehind` | internal/logs/poll.go:268-285 | the two skips together: what moves is counted, the floor is looked at once, and the cursor ends within the catch-up limit and not behind the floor, moved there only if it had to be |
| `Pollers.OpenRound` | internal/logs/poll.go:268-293 | the round begins exactly when its horizon lies after the cursor; floor and gate have been looked at once each; the cursor is within the catch-up limit and not behind the floor, moved only if it had to be; the horizon is the settle limit or, if lower, the gate, and never past either |
| `Pollers.HandOut` | internal/logs/poll.go:308-335 | what the workers were handed is the in-scope part of the batch and nothing else, however it ends; on success the batch is the scan of the page and every sink has accepted its in-scope lines since the call; it counts as interrupted exactly if the context is found to have ended |
| `Pollers.DeliverPage` | internal/logs/poll.go:304-336 | what the workers were handed is the in-scope part of the batch and nothing else, however it ends; on success the page in flight is made of the last reply, the batch is its scan and every sink has accepted its in-scope lines since the query; on any error the round is over |
| `Pollers.MovePast` | internal/logs/poll.go:336-355 | the cursor comes to the landing of the accepted page; a full page that does not move it is stepped over and counted; unless the page ends the round the cursor has moved and is saved |
| `Pollers.PollPage` | internal/logs/poll.go:304-354 | on error cursor and history are untouched; on success the cursor accounts for the batch, which is what the workers were handed, and a page that does not end the round moves and saves the cursor |
| `Pollers.Pause` | internal/logs/poll.go:295-303 | before the first page no wait; before any other exactly one if less than a fifth of the budget just read is left, on record with that budget, of one second times limit/(5 remaining), at most 20, rounded down, in whole numbers; otherwise none |
| `Pollers.NextPage` | internal/logs/poll.go:295-354 | the wait that may go before a page, then the page: queries and waits on record continue those of the round as they should, and a page that does not end the round moves the cursor |
| `Pollers.PageThrough` | internal/logs/poll.go:295-355 | paging ends for any growing source, because the distance to one past the horizon falls on every full page; on record is a query at once and before every later query exactly one wait of the length the budget read for it asks, if that is low, and none otherwise; the report's lines are those the workers were handed and, without an error, those the cursor now accounts for; the end is an error exactly if a call failed, and an interruption exactly if the context is found to have ended; a round that ends well has every line accounted for |
| `Pollers.CloseRound` | internal/logs/poll.go:357-366 | the cursor ends at or past the horizon, equals the live one and is saved |
| `Pollers.PollOnce` | internal/logs/poll.go:264-367 | no report means that settle limit or gate were not after the cursor. Otherwise the report begins at the cursor, moved by what the skip counter says and only as catch-up limit and floor ask, and its horizon is the settle limit or the gate; its lines are, on scope, what the workers were handed meanwhile and nothing else; its queries and the waits between them are as the budget asks; a round ends in an error exactly if a call failed. One that ends well accounts for exactly those lines, by timestamp and hash the source lines from where it began to the horizon less those already seen, save at stepped timestamps that hold more than a page and past the point where its last reply was cut short, which is then on record as a window; a timestamp is stepped over only if it holds a page; the cursor ends at the horizon or one nanosecond past it and is stored unless older than the pruning age; positions, history and skip counters stay in step |
| `Pollers.AfterRound` | internal/logs/poll.go:222-261 | it stops exactly if the context is found to have ended; a retired source read past its retirement without an error ends drained, its stored cursor deleted; any other round, failed or not, is followed by exactly one wait, as long as it may be after the wait before |
| `Pollers.RunRound` | internal/logs/poll.go:221-262 | a pass stops exactly if the context is found to have ended; it goes on only after exactly one wait on record, as long as it may be after the wait before, the budget read, retirement and whether this round's lines moved the cursor without a failed call; it drains, its stored cursor deleted, after a round without a failed call with the cursor at or past its retirement, and then does not wait instead; what is handed out and what the cursor accounts for stay in balance; without a gate and a failed call the cursor ends at or past the settle limit of the moment the pass began |
| `Pollers.RunPoller` | internal/logs/poll.go:210-262 | the first position published is the stored cursor, or the start; a poller stops only if the context is found to have ended, and then does; one still running after k rounds has waited k times, each wait as it may follow the one before; the workers are handed at least what the cursor comes to account for, and in a life without a failed call exactly that, so no line more often than the source holds it; without a gate and a failed call the cursor comes to the settle limit of the moment it began or later; a poller that exits drained has deleted its cursor and lost nothing before its retirement that NothingLost does not name |
| `Pollers.BalanceIsOnce` | internal/logs/poll.go:210-367 | with no failed call since some moment, what the workers were handed since, with what the cursor accounted for then, is what it accounts for now: at most the source's copies, and all of them in a delivered window |
| `Pollers.HandOverCovers` | internal/logs/pipeline.go:234-241 | between a drained poller and one that begins no later than its retirement, no moment is left to neither |
| `PollSafety.WindowsInOrder` | internal/logs/poll.go:270-285 | of two recorded windows the earlier one ends before the later one begins |
| `PollSafety.AcceptCredits` | internal/logs/poll.go:314-338 | a line inside the accepted part of a page is then accounted for exactly as often as the source held it at the query |
| `PollSafety.StepsOnlyOverfull` | internal/logs/poll.go:336-351 | a timestamp is stepped over only when a page of lines there has been accounted for |
| `PollSafety.FullPageMoves` | internal/logs/poll.go:336-351 | a full page moves the cursor, at most one nanosecond past the horizon |
| `PollSafety.AcceptKeepsSound` | internal/logs/cursor.go:15-22 | after an accepted page the lines before the new cursor are dealt with, at the cursor exactly those in Seen are, later ones are not, and each is backed by every sink |
| `PollSafety.NextKeepsInv` | internal/logs/poll.go:267-367 | every step, of the poller or around it, keeps live, stored and on-disk cursors sound |
| `PollSafety.ReachableInv` | internal/logs/cursor.go:15-22 | so they are sound in every reachable state |
| `PollTheorems.NoSilentLoss` | internal/logs/poll.go:264-367 | in every reachable state each in-scope source line between the start and the live, stored or on-disk cursor was accepted by the sink as often as the source holds it, or its timestamp is in a recorded gap, is a recorded skip at which a whole page of source lines was accepted, or was passed on a reply cut short |
| `PollTheorems.ThinTimestampLosesNothing` | internal/logs/poll.go:343-351 | a line outside gaps and cut replies whose timestamp holds at most a page of lines was accepted as often as the source holds it, stepped over or not |
| `PollTheorems.WholeRepliesCutNothing` | internal/logs/poll.go:121-129 | in a run in which dropping unparsable lines never makes a short page of a full reply, no window is cut |
| `PollTheorems.CutReplyLosesALine` | internal/logs/poll.go:336-362 | a reachable state whose cursor is past an in-scope line that no sink was given, in no recorded gap or skip, after a full reply that meets the query's contract and of which nothing parses |
| `PollTheorems.CursorTimestampIsOpen` | internal/logs/cursor.go:15-18 | a reachable state between two pages with an in-scope source line at the cursor's timestamp that is neither counted in Seen nor known to any sink |
| `PollTheorems.LateLineIsExcused` | internal/logs/poll.go:269 | because the horizon stays `settle` behind, a line that appears behind the cursor can only be one in a gap, at a skip or passed on a reply cut short |
| `PollTheorems.CursorNeverMovesBack` | internal/logs/poll.go:338-361 | but for a restart the cursor never moves back and its history is only extended |
| `PollTheorems.SeenAfterPage` | internal/logs/cursor.go:15-35 | at an unchanged timestamp Seen becomes the pointwise maximum of itself and the page's counts; at a later one it is exactly the page's counts |
| `PollTheorems.ScanIsUnique` | internal/logs/poll.go:310-331 | a page has one scan, whatever the order of its ties |
| `PollTheorems.FinalPageIsExact` | internal/logs/poll.go:336-342 | the page that ends a round accounts for every line up to and including the horizon exactly, if its reply was not cut short |
| `PollTheorems.StepLosesOnlyBeyondThePage` | internal/logs/poll.go:343-351 | a timestamp skip costs only the copies beyond the larger of those seen and those on the page, and is recorded |
| `PollTheorems.GapAccounting` | internal/logs/poll.go:270-285 | windows do not overlap, and gap time, delivered time, time passed on cut replies and one nanosecond per skip add up to the distance covered |
| `PollTheorems.KindSkew` | internal/logs/poll.go:140-153 | at any moment a page is in flight, what it owes is at most 50 min before the deploy position the floor was read from, and at most 45 min past the current deploy position while the poller that capped the round is registered |
| `KindPairs.SkewOverRun` | internal/logs/poll.go:277-290 | over whole runs of both: every line handed out in a round is at most 50 min before the deploy position its floor was read from, and, if a deploy poller was registered when the round began and has stayed so, at most 45 min past the deploy position at that very moment |
| `KindPairs.PairRefines` | internal/logs/poll.go:90-98 | beside a running deploy poller, replaced or removed at any time, the HTTP poller stays a run of its own system: the position it reads never moves back |
| `RoundProofs.RoundAdvances` | internal/logs/poll.go:332-351 | accepting a page keeps the account of the round so far, counts a skip exactly if the page was stuck, and ends the round only at the horizon |
| `RoundProofs.RoundCloses` | internal/logs/poll.go:336-342 | after the last page each line from where the round began to the horizon has been handed out exactly as owed, never more, and less only at crowded skips or past a cut |
| `RoundProofs.RoundIsExact` | internal/logs/poll.go:264-367 | the report of a round is exact against the source at its end, too |
| `RoundProofs.NoCrowdNoSkip` | internal/logs/poll.go:336-351 | if no timestamp in the round holds a page of lines, the round skips none |
| `Pacing.BudgetThrottle` | internal/logs/poll.go:369-386 | the factor is in [1, 20], above 1 exactly below a fifth of the budget, there inversely proportional to what is left, and 20 from a hundredth down |
| `Pacing.ThrottleFallsWithBudget` | internal/logs/poll.go:369-386 | at a fixed limit the factor never rises with the budget left |
| `Pacing.StretchedLasts` | internal/logs/poll.go:295-303 | in whole numbers: the factor stretches a wait exactly if less than a fifth of the budget is left, then to wait times limit/(5 remaining), at most 20, rounded down |
| `Pacing.FollowsIsPaced` | internal/logs/poll.go:227-255 | a wait as it may follow another is in [pollMin, 20 pollMax], at most pollMax unless throttled, at least pollMax if throttled, and pollMin while retiring |
| `Pacing.WaitLengths` | internal/logs/poll.go:227-255 | the length of each wait of a poller in whole numbers: pollMin while retiring; else pollMax stretched as above if the budget is low; else pollMin after a productive round; else twice the wait before, at most pollMax |
| `Pacing.IdleWaitsDouble` | internal/logs/poll.go:227-236 | among the waits of a poller, over k idle or failing rounds in a row they double up to pollMax |
| `WorkerSafety.CheckAnswers` | internal/logs/worker.go:117-123 | once written has reached the target, failed compared with the mark decides correctly |
| `WorkerSafety.NextKeepsInv` | internal/logs/worker.go:67-144 | every step of producers, worker and shutdown keeps the queue numbered without a gap and what each producer knows about its own items true |
| `WorkerTheorems.WaitersAreRight` | internal/logs/worker.go:108-130 | a positive answer means every item of the caller since its mark was in an accepted batch; a negative one that some record after the mark was in a dropped batch |
| `WorkerTheorems.AcknowledgedLines` | internal/logs/worker.go:108-130 | a positive answer in lines with multiplicity: on top of what the sink had accepted at the mark it has accepted every line the caller queued since |
| `WorkerTheorems.Watermark` | internal/logs/worker.go:27-36 | settled history, batch and queue are the records sent, numbered 1, 2, ... without a gap; their number is enqueued or one more; written is the number of the last settled one, failed of the last one dropped |
| `WorkerTheorems.DropUsesNoNumber` | internal/logs/worker.go:67-77 | dropping on a full queue uses up no number and touches nothing queued |
| `WorkerTheorems.NoLostWakeup` | internal/logs/worker.go:113-144 | a blocked waiter whose target is reached finds its progress channel closed, wakes and gets its answer |
| `WorkerTheorems.EveryRunSettles` | internal/logs/worker.go:147-211 | in every run, whatever producers do meanwhile, the first n items have settled once the worker has taken as many steps of its own as the rank of the first state |
| `WorkerTheorems.WorkerCanStep` | internal/logs/worker.go:27-30 | while something sent is unsettled and the worker has not exited it can take a step, whoever holds the send lock |
| `WorkerTheorems.ExitLeavesNothing` | internal/logs/worker.go:187-211 | when the worker exits everything sent by then has settled |
| `WorkerTheorems.BlockedSenderGetsRoom` | internal/logs/worker.go:27-30 | in every run in which a producer stays blocked with the send lock in hand there is room on the queue after so many worker steps |
| `WorkerTheorems.WaiterGetsAnswer` | internal/logs/worker.go:113-130 | in every run a blocked waiter has its target reached after so many worker steps, and its channel closed if it has not moved |
| `WorkerTheorems.WrittenAheadOfEnqueued` | internal/logs/worker.go:85-87 | a reachable state in which written is one ahead of enqueued |
| `Delivery.WorkerStepIsDrift` | internal/logs/worker.go:147-220 | each step of a worker or another producer is, for the poller, a step of its surroundings: what a sink accepted is never taken back |
| `Delivery.MoveOnIsAccept` | internal/logs/poll.go:312-339 | moving on after every worker has answered is a step that the poller's own system allows only once every sink has accepted the page |
| `Delivery.RunKeepsInv` | internal/logs/poll.go:304-339 | in every run of the whole system each worker marked since the query holds exactly the lines the poller has queued so far, and the poller has its positive answer where it has moved past waiting |
| `Delivery.NoSilentLossEndToEnd` | internal/logs/poll.go:264-425 | no silent loss in every run of poller, producers, workers and restarts, with accepted meaning what the workers got accepted |
| `Delivery.CursorMovesOnAnswersOnly` | internal/logs/poll.go:332-339 | but for a restart a cursor that moves passes a recorded gap, or a page each in-scope copy of which, twins included, every sink accepted on top of what it had at the query |
| `HandedOut.RunBalances` | internal/logs/poll.go:310-339 | in a run without failures and restarts each worker has been given by the poller, copy by copy on scope, what the cursor accounts for and what is due of the page in flight |
| `HandedOut.NothingTwice` | internal/logs/poll.go:264-367 | so each worker is given each in-scope line at most as often as the source holds it, and just as often in a delivered window |
| `NeverStuck.ScanExists` | internal/logs/poll.go:310-331 | every page, whatever the order of its ties, has a scan |
| `NeverStuck.PageGoesOn` | internal/logs/poll.go:304-339 | in every run of the whole system, with a page in flight and no worker exited, the poller has a step that takes the page on, or the worker it waits for or the producer holding that worker's send lock has one |
| `SinkWorkers.SinkWorker.constructor` | internal/logs/worker.go:45-64 | queue and batch sizes with their defaults, nothing sent or settled |
| `SinkWorkers.SinkWorker.Enqueue` | internal/logs/worker.go:66-77 | the record gets the next number if there is room, and is dropped without a trace on the queue otherwise |
| `SinkWorkers.SinkWorker.EnqueueWait` | internal/logs/worker.go:79-92 | the record gets the next number once there is room, at once if there is; nothing is sent only if the queue stays full, because the worker has closed or takes no record meanwhile |
| `SinkWorkers.SinkWorker.WaitWritten` | internal/logs/worker.go:108-130 | true: each item sent after the mark and before the call was accepted; false: one after the mark was dropped; no answer only while one of them is unsettled, and not if the ticker of an open worker fires after as many records as were queued |
| `SinkWorkers.SinkWorker.SendPage` | internal/logs/worker.go:79-130 | mark, queue a page's records, wait: a positive answer means the sink accepted every record with multiplicity on top of what it had accepted before, whoever else was sending; an answer comes if the ticker of an open worker fires after as many records as the queue holds |
| `SinkWorkers.SinkWorker.Settle` | internal/logs/worker.go:132-144 | written and failed only rise, failed only for a dropped batch, and the generation changes every time |
| `SinkWorkers.SinkWorker.WriteRecords` | internal/logs/worker.go:222-247 | at most three attempts, and fewer without success only if the context ended; waits as the capped doubling says; true exactly when the sink took the records, once |
| `SinkWorkers.SinkWorker.Write` | internal/logs/worker.go:213-220 | the batch joins the settled history as one block with the sink's verdict, and the counters follow it; a bad verdict means three attempts or an ended context |
| `SinkWorkers.SinkWorker.Turn` | internal/logs/worker.go:161-184 | what each case does. Record: the first queued record joins the batch, and a full batch settles as one block. Tick: what is in hand settles as one block, the queue stays. Either with an ended context in the way, or Done: everything sent settles and the worker closes. A block is dropped only after three attempts or an ended context |
| `SinkWorkers.SinkWorker.Consume` | internal/logs/worker.go:161-184 | whatever the worker wakes up to: a record is taken if there is one, a tick flushes, an ended context closes; a closed worker does nothing |
| `SinkWorkers.SinkWorker.Serve` | internal/logs/worker.go:161-184 | for any order of records and ticks, with producers adding at will, everything sent before has settled once the ticker has fired after as many records as were queued, without a shutdown; after a shutdown in any case |
| `SinkWorkers.SinkWorker.DrainAndClose` | internal/logs/worker.go:187-211 | everything in hand and queued is settled before the sink is closed, and nothing dropped unless the sink was tried three times or the draining context ended |
| `SinkWorkers.SinkWorker.Run` | internal/logs/worker.go:146-185 | the consumer as a whole settles everything that was queued before it closes |
| `Backoff.ShiftSaturates` | internal/logs/worker.go:249-255 | base << k on int64 with the clamp equals base doubled k times capped, although the shift wraps: overflowed values are not positive or at least 2^43 |
| `Backoff.RetryBackoffIsCapped` | internal/logs/worker.go:249-255 | for every attempt the sink retry wait is min(250 ms 2^(attempt-1), 5 s) |
| `Backoff.ClientBackoffIsCapped` | internal/railway/client.go:363-371 | for every attempt the request retry wait is min(500 ms 2^(attempt-1), 30 s) |
| `Clients.Client.constructor` | internal/railway/client.go:88-131 | unset options get their defaults, so there is an endpoint and at least one retry |
| `Clients.RotationIsFair` | internal/railway/client.go:254-281 | in one attempt no endpoint is tried twice, and one that fails at the transport has found every endpoint down |
| `Clients.Client.Do` | internal/railway/client.go:251-281 | the round trips on record are to the endpoints in turn from the start, each but the last down; the reply is that of the last; a transport failure means all were tried |
| `Clients.Client.WaitToRetry` | internal/railway/client.go:210-221 | the context sleeps once, for the larger of the capped doubling and what the reply asked for; cancelled exactly if it has ended |
| `Clients.Client.Execute` | internal/railway/client.go:185-249 | the round trips on record are those of the attempts, attempt number i starting at endpoint i; at most one more attempt than retries, each but the first after no answer, a 429, a block page or a status of 500 or more; success means a 200 that is no block page, refusal any other answer, exhaustion that all attempts were used up, cancellation an ended context or a refusing limiter; each wait is the capped doubling or, after a 429 or block page, at least the time it asks for or the floor |
| `CursorStores.FileCursorStore.constructor` | internal/logs/cursor.go:63-81 | a persistent store begins with the file's contents, an in-memory one empty |
| `CursorStores.FileCursorStore.Load` | internal/logs/cursor.go:83-88 | the cursor under the key, if there is one |
| `CursorStores.FileCursorStore.Flush` | internal/logs/cursor.go:115-144 | the file is the whole of memory, or unchanged and an error; an in-memory store rewrites nothing and never fails |
| `CursorStores.FileCursorStore.Save` | internal/logs/cursor.go:90-103 | the saved key holds the cursor if pruning is off or its timestamp is at most the pruning age before now, and is gone otherwise; every other key keeps its cursor under the same condition on its own timestamp and is gone otherwise; no other key appears; a persistent store rewrites its file once, and a crash finds some complete earlier version |
| `CursorStores.FileCursorStore.Delete` | internal/logs/cursor.go:105-113 | exactly the key is gone, and the file is rewritten only if it was there |
| `CursorStores.LoadAfterSave` | internal/logs/cursor.go:83-103 | under any key a saved or earlier cursor is read back after a save if and only if pruning is off or its timestamp is at most the pruning age before now |
| `CursorStores.SaveIsKeyStep` | internal/logs/cursor.go:90-103 | a save stores the saved source's cursor unless too old, leaves every other source's entry or prunes it for its age, and the file follows or stays |
| `CursorStores.DeleteIsKeyStep` | internal/logs/cursor.go:105-113 | a delete removes the one source's entry and leaves every other, and the file follows or stays |
| `CursorStores.KeyStepIsModelled` | internal/logs/cursor.go:90-113 | whatever such a change makes of a source's stored cursor and file entry, at any moment, its transition system reaches a state with just that |
| `Managers.HttpPoller.Close` | internal/logs/pipeline.go:382-385 | a retire channel is closed at most once |
| `Managers.KeysTellApart` | internal/logs/pipeline.go:341 | for ids without '|' equal keys mean equal service (or environment) and deployment (or service) |
| `Managers.KeysTellApartIff` | internal/logs/pipeline.go:341 | exactly when that fails: for some ids keys tell sources apart if and only if none of the ids continues another after a '|' |
| `Managers.Manager.NextTargets` | internal/logs/pipeline.go:226-229 | targets by environment, the last one counting |
| `Managers.Manager.LastCounts` | internal/logs/pipeline.go:226-229 | what an environment maps to is the last target listed for it |
| `Managers.Manager.DeploySources` | internal/logs/pipeline.go:276-289 | the wanted deploy keys, one per environment or per in-scope service with an active deployment, each with the environment and service it asks for |
| `Managers.Manager.HttpSources` | internal/logs/pipeline.go:332-349 | the wanted HTTP keys, one per in-scope service with a domain and an active deployment, each spelling out the service and deployment it stands for |
| `Managers.Manager.ReconcileDeploy` | internal/logs/pipeline.go:275-325 | afterwards exactly the wanted deploy sources run; those already there are the same pollers, the others read what their key asks for and begin at the given start |
| `Managers.Manager.StartHTTP` | internal/logs/pipeline.go:350-377 | every wanted HTTP source runs; those already there are untouched, each other one reads the deployment of its service from the given start |
| `Managers.Manager.RetireHTTP` | internal/logs/pipeline.go:378-392 | exactly the pollers no longer wanted and not yet retired are retired, at a time between the call and now; no retire channel is closed twice |
| `Managers.Manager.ReconcileHTTP` | internal/logs/pipeline.go:331-393 | no HTTP poller is removed, every wanted one runs, the unwanted ones are retired, and every new one reads the active deployment of a listed service |
| `Managers.Manager.Reconcile` | internal/logs/pipeline.go:217-252 | a failed discovery changes nothing. Otherwise, in terms of services, for ids without '|': every listed service with a domain, an active deployment and a place on the allowlist has a poller that reads exactly that deployment, the one it had or one begun at the previous reconcile (at first, shortly before startup); every poller that reads anything else is retired, between the reconcile's time and now; the deploy pollers are those of the last target of each environment, or of each of its in-scope services with an active deployment |
| `Managers.Manager.KeysMeanServices` | internal/logs/pipeline.go:332-349 | what a reconcile does to keys, it does to services and their deployments |
| `Managers.Manager.KeysMeanEnvironments` | internal/logs/pipeline.go:276-289 | and to environments and their services |
| `Managers.Manager.PollerExits` | internal/logs/pipeline.go:366-373 | a drained poller removes itself and its subscription, unless the key is another poller's by then |
| `Managers.Manager.HandOver` | internal/logs/pipeline.go:234-241 | a poller whose deployment is no longer listed is retired, and a service found unread gets a poller that, without a stored cursor, begins no later than where the retired one stops |
| `Managers.Manager.HandOverLater` | internal/logs/pipeline.go:234-241 | and so does a service that turns up in the next reconcile |
| `Managers.Manager.WantedHttpHasGate` | internal/logs/pipeline.go:262-289 | every service with a domain and an active deployment has a deploy key that reconciling registers; in per-service scope if it is on the deploy allowlist |
| `Managers.Manager.Shutdown` | internal/logs/pipeline.go:197-210 | nothing is left registered |
| `LokiLabels.SanitizeLabel` | internal/sink/loki.go:192-209 | the result is a valid label name: each letter and underscore, and each digit that is not first, as it was, every other character an underscore |
| `LokiLabels.SanitizedIsLabel` | internal/sink/loki.go:192-209 | exactly the valid label names are left unchanged, and no result contains '=' |
| `LokiLabels.StreamKey` | internal/sink/loki.go:176-190 | whatever order the map yields, the key is the one determined by the label set |
| `LokiKeys.StreamKeyFaithful` | internal/sink/loki.go:176-190 | where no value can imitate, two label sets of a sink have the same key if and only if they are equal |
| `LokiKeys.FaithfulIffUnambiguous` | internal/sink/loki.go:176-190 | the keys of all label sets of a shape, values over an alphabet, tell them apart if and only if no value can spell NUL and the fixed labels up to a later optional name and '=' |
| `LokiShapes.NulJoinsStreams` | internal/sink/loki.go:117-190 | two records, one with NUL in its project name, whose different label sets share a key |
| `LokiShapes.BaseFields` | internal/sink/loki.go:117-129 | the base labels by field: a name, or its id where there is no name, and no label for what is empty |
| `LokiShapes.LabelsFor` | internal/sink/loki.go:117-132 | exactly the base labels with a value and the sanitized extra ones, extra ones winning |
| `LokiShapes.LabelNamesAreValid` | internal/sink/loki.go:117-132 | every stream label is a valid label name |
| `LokiShapes.BuiltFits` | internal/sink/loki.go:117-132 | what a sink builds of a record has the sink's shape: job, source and configured names always, the others only with a value |
| `LokiShapes.FittingIsBuilt` | internal/sink/loki.go:117-132 | and every label set of that shape is built of some record |
| `LokiShapes.KeysFaithfulIff` | internal/sink/loki.go:117-190 | over an alphabet the keys of what the sink builds of records tell label sets apart if and only if the alphabet leaves no such ambiguity |
| `LokiPush.ReservedFields` | internal/sink/loki.go:135-141 | the reserved entries by field: each of the six under its own name unless it is empty |
| `LokiPush.DigitsAreDecimal` | internal/sink/loki.go:156-168 | the number in a numbered key is a decimal numeral without leading zeros |
| `LokiPush.UniqueKey` | internal/sink/loki.go:156-168 | an unused key: the key itself, or the first free numbered one, found within \|m\| + 1 probes |
| `LokiPush.StructuredMetadata` | internal/sink/loki.go:134-154 | for any iteration order reserved entries keep their values, every attribute has an entry of its own named after it, and there are no others |
| `LokiPush.Group` | internal/sink/loki.go:64-82 | one stream per key, holding the entries of the records with that key in batch order under the labels of one of them |
| `LokiPush.SelectedInOrder` | internal/sink/loki.go:64-82 | the entries of a stream are those of the records with its key, in batch order |
| `LokiPush.Push` | internal/sink/loki.go:84-87 | the push lists every stream exactly once, in some order of their keys |
| `LokiPush.StreamsFollowLabels` | internal/sink/loki.go:64-82 | where no value can imitate, two records of a batch share a stream if and only if their label sets are equal, and the stream carries that label set |
| `LokiPush.NothingLostInGrouping` | internal/sink/loki.go:64-87 | the streams pushed, in whatever order, together hold exactly the entries of the batch, each as often as it occurs |

## Left out

- `PollFeed.Feed.DispatchWait`: when the context ends first, some workers may already hold the line; the journal counts what every worker holds, and `Delivery` follows each worker.
- `PollFeed.Feed.WaitWritten`: what it may answer is stated as a contract on values; that poller and workers honour it is proved in `Delivery` on the system of both, not by letting the method drive worker objects.
- `Pollers.RunPoller`: covers any finite number of rounds; that a poller eventually catches up is not claimed, since the service may answer with errors for ever.
- `SinkWorkers.SinkWorker.WaitWritten`: the wait for the progress channel is a finite sequence of turns of the worker, given as what it wakes up to; the channel itself, and that no wakeup is lost, is in `WorkerTheorems.NoLostWakeup`.
- `SinkWorkers.SinkWorker.Run`: covers any finite sequence of turns before shutdown.
- `Managers.Manager.Reconcile`: what it says of services is for ids without '|', for others two services may share a key, exactly as `Managers.KeysTellApartIff` says.
- `Managers.Manager.PollerExits`: uniqueness of a live poller per cursor key, and freedom from gaps when a retiring deployment comes back into discovery, are not promised by the code and not claimed.
- `Managers.Manager.Shutdown`: cancelling the pollers and waiting for pollers and workers are not modelled, only what stays registered.
- `PollTheorems.NoSilentLoss`: speaks of one lineage, from its start to its cursor. When the stored cursor is gone (never saved, deleted, or pruned for its age) a poller begins anew at its start time, and what lies between the two lineages is in neither; the code records no gap for it.
- `HandedOut.NothingTwice`: a page that failed, or was in flight at a crash, is queried again and its lines may be sent a second time; how often is not bounded.
- Subscribe mode (`runEnvSubscription`, `runHTTPSubscription`): lossy by design.
- `reconcileBuild`, the enable flags of the three log kinds and case folding in `inScope`: easy members.
- The early publication of a deploy poller's position before it has loaded its cursor (`internal/logs/pipeline.go:299-306`): positions of a deploy poller count from its first round.
- Lines disappearing from the history through retention: the source only grows.
- Lines without a timestamp that parses can never be forwarded; they are not part of the source.
- Hash collisions: a line is its timestamp and hash, so two lines with equal hashes at one timestamp count as copies of one line.
- Clocks that step back, tickers, goroutine scheduling beyond the interleavings modelled, and lock acquisition order.
- Metrics in seconds and floating-point rounding: counters are integers of nanoseconds, fractions are reals.
- The bytes of the cursor file, its parse errors at startup and the temporary file behind the atomic replace.
- GraphQL and WebSocket transport, headers, JSON, the detection of a Cloudflare page and the parsing of Retry-After: their results are arbitrary.
- Record conversion, OTLP exporters, the HTTP push to Loki, configuration, the Prometheus collector, `doctor` and dashboards.
- Invalid UTF-8 in label names and values; strings are sequences of code points.
