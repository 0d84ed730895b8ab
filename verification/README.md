# xqueue: the life of a submission

XQueue sits between a learning platform (the LMS) and external graders. A
submission is one row of a table. It is inserted by `submit`, handed out for a
limited time by `get_submission`, or pushed to a grader by a worker, settled by
`put_result`, retired by management commands, and finally deleted. Each handler
is short, but all of them write the same columns (`retired`, `lms_ack`,
`num_failures`, `pull_time`, `pullkey`, `push_time`) under different rules, and
the LMS, the graders and the clock can do anything in between.

The project models that table and proves what every run keeps.

- `Lifecycle.dfy` is the state machine. A `Step` is one handler call with
  everything the outside decides (clock readings, answers, the row a query picks
  among equally old ones); `RowAfter` is what it does to one row; a `Run` is any
  sequence of steps. `Enabled` asks only for the handler's own guard; `InTurn`
  adds that handlers run one after another on a clock that never goes back, and
  that a query returns the oldest candidate.
- `History.dfy` says independently of `RowAfter`, from the steps of a run alone, what
  every column, the log and the clock must be, and which rows can be handed out,
  pushed and retired; every reachable state agrees.
- `Leases.dfy`, `Fairness.dfy`, `Reopening.dfy`, `Accounting.dfy` hold the results
  over whole runs.
- `Interleaving.dfy` lets handlers overlap: a row is read, and later the whole copy
  is saved. It proves what survives every interleaving, and that saves which are not
  stale amount to a run of whole handlers. `StaleSaves.dfy` proves when stale ones
  undo a supersession or forget failures, exactly, and when they let two graders
  share a lease, exactly for handlers that save promptly. `SharedAccounting.dfy`
  carries the accounts of whole runs over to overlapping handlers.
- `Handlers.dfy` has the handlers as they run, on `Submission` objects whose fields
  they assign and save, each proved to do its step. `DeleteOld.dfy`,
  `Supervisor.dfy` and `QueueMetrics.dfy` do the same for three commands.
- `Timestamps.dfy` prints clock readings and proves lease-key seeds distinct;
  `Json.dfy` and `FileDicts.dfy` store and recover the dictionary of uploaded files,
  and `FileTrip.dfy` follows it through a whole run.

Inputs of the model: the LMS's answer to each POST, a push grader's reply, clock
readings, process exit codes, what a URL fetch returns, the hash function and the
storage's URLs. Settings are the fields of `Config`.

Where the code and its own description differ, the model follows the code:
`put_result` never looks at `retired`, so a failing result brings a retired row
back (`ReopenedByFailedResult`); a key is not used up, so a grade can be posted
twice (`ResultsCanRepeat`); the number `submit` replies with, described as prior
items, counts the new row (`Handlers.Xqueue.Submit`); the lease is taken even when
the files then cannot be fetched (`Handlers.Xqueue.GetSubmission`).

## Model

| member | source | states |
|---|---|---|
| Lifecycle.InvariantHolds | submission_queue/ext_interface.py:142-167 | In every run, acknowledged rows are retired, unretired rows have at most MAX failures, a key exists exactly when a pull time does, and a pushed row without a key is retired; ids and arrival times stay below the counter and the clock |
| Lifecycle.SavedOk | submission_queue/consumer.py:137-162 | No handler, given a good copy of a row, saves a bad one |
| Leases.LeaseSpacing | submission_queue/models.py:76-82 | In every run the k-th pull of a row is at least (k-1) delays after its first |
| Leases.PullsAreDistinctPairs | submission_queue/ext_interface.py:64-70 | With a positive delay, the (row, time) pairs that keys are made of are as many as the pulls |
| Leases.EarlierPulls | submission_queue/models.py:76-82 | Every pull of a row but its last was made at least one delay before the last |
| Leases.TableHoldsLastPull | submission_queue/ext_interface.py:64-72 | A row's pull time is that of its latest pull in the run, and its key the hash of that time's text and the id |
| Leases.Fencing | submission_queue/ext_interface.py:142-143 | Of the hashes of all (time, id) texts issued in a run, a row accepts exactly that of its latest pull, if the hash has no collision on these texts |
| Leases.KeyCheck | submission_queue/ext_interface.py:142-143 | Any presented text is accepted exactly when the row was pulled and the text is the hash of its latest pull's time and id |
| Timestamps.SeedInjective | submission_queue/ext_interface.py:66 | The text hashed into a key determines the pull time and the submission |
| Timestamps.ShowTimeInjective | submission_queue/ext_interface.py:64-66 | Two UTC instants that print alike, with or without a printed fraction, are the same |
| Timestamps.FieldsRoundTrip | submission_queue/ext_interface.py:64 | Civil date and time fields lie in their civil ranges, month lengths and leap years included, and determine the instant |
| Timestamps.ShowTimeShape | submission_queue/ext_interface.py:64-66 | Where each field, separator and the zone stand in the printed time |
| Fairness.NoDoubleHandout | submission_queue/models.py:76-82 | Within one lease all pulls of a queue hand out different rows |
| Fairness.NoStarvation | submission_queue/models.py:42-46 | Within one lease a row that stays eligible has been handed out once the queue's pulls outnumber the rows ahead of it, while other leases may expire |
| Fairness.AheadIsFixed | submission_queue/models.py:42-46 | Once the clock has passed a row's arrival, nobody joins the rows ahead of it |
| Fairness.PullLowersLength | submission_queue/models.py:24-28 | A successful pull lowers its queue's length by exactly one and no other queue's |
| Fairness.PullsTakeFromTheQueue | submission_queue/models.py:65-82 | With only pulls running, the rows available at the start are those handed out and those still available |
| Fairness.DrainAgreesWithCount | submission_queue/ext_interface.py:36-38 | Rows handed out plus the length now equal the length at the start; at length zero they are a permutation of the available rows |
| Fairness.EmptyWhenDrained | submission_queue/ext_interface.py:57-60 | If no old lease expires meanwhile, "empty" is answered exactly when as many rows were handed out as the length first reported |
| Fairness.DrainInOrder | submission_queue/models.py:42-46 | And the rows come out in order of arrival |
| Reopening.ReopenedByFailedResult | submission_queue/ext_interface.py:152-165 | A step turns a retired row unretired if and only if it is an accepted, undelivered result with failures left; it raises the failures |
| Reopening.BoundedReopening | submission_queue/ext_interface.py:152-165 | In any run a row reopens at most as often as it has failures left, so at most MAX times |
| Reopening.ExhaustedIsFinal | submission_queue/ext_interface.py:162-165 | Retired with MAX or more failures is final until deletion |
| Reopening.PotentialStep | submission_queue/ext_interface.py:152-165 | The failures left over all rows never grow for old rows, and shrink with every reopening |
| Reopening.ReopeningsArePaid | submission_queue/ext_interface.py:152-165 | All reopenings of a run are paid for by the failures left at its start plus MAX per submission |
| Reopening.SubmitSupersedes | submission_queue/lms_interface.py:47-77 | Right after a submission its row is the only unretired one with its 128-character callback key |
| Reopening.SupersessionCount | submission_queue/lms_interface.py:86-96 | In every reachable state a key has at most one unretired row for its last submission plus one per reopening since |
| Reopening.AtMostOneLive | submission_queue/lms_interface.py:86-96 | Without a reopening since, at most one row with the key is unretired |
| Accounting.RowsKeepTheirOrigin | submission_queue/models.py:96-109 | Column by column, a row keeps the requester, queue, header, body, file columns and time it was submitted with, and the first 128 characters of the callback |
| Accounting.EveryPostIsExplained | submission_queue/consumer.py:42-63 | Every post to the LMS carries the exact header of an earlier submit call and a body accepted or received for that submission, or the fixed failure message |
| Accounting.NothingRetiresUnaccounted | submission_queue/consumer.py:148-160 | A retired row was acknowledged, or used up its failures, or since it last reopened was superseded, pushed or aged out |
| Accounting.DeliveriesNeedReopening | submission_queue/consumer.py:148-162 | A row is delivered to push graders at most once more than it reopens |
| Accounting.PushGetsOneChance | submission_queue/consumer.py:148-162 | A submission never pulled is delivered at most once in any run |
| Accounting.NoSecondPush | submission_queue/models.py:53-63 | For such a row the worker's query never uses the timed-out half of its filter, and the delivery retires it |
| Accounting.KeyLastsUntilNextPull | submission_queue/ext_interface.py:142-167 | A key is not used up: at any later point of a run it is accepted again if and only if the row was not pulled in between |
| Accounting.ResultsCanRepeat | submission_queue/ext_interface.py:142-167 | And exactly then the same result is posted to the LMS again |
| Accounting.DeliveryBudget | submission_queue/consumer.py:60-71 | A run makes at most five posts and at most one successful post per report |
| Accounting.RetiredWithinBudget | submission_queue/ext_interface.py:152-165 | A row that stays unretired has had fewer than MAX + 1 - failures accepted results |
| History.TableIsHistory | submission_queue/ext_interface.py:145-167 | In every reachable state each column holds what the last step of the run to write it wrote, told from the steps alone: who was handed the row, what was answered, which reports the LMS took, what failed, and whether it is retired |
| History.LogIsHistory | submission_queue/consumer.py:42-71 | The log is exactly the reports of the run in order: submitted header, accepted result, push reply or failure message |
| History.WhoIsPulled | submission_queue/models.py:30-51 | A request is answered exactly with a row submitted to its queue, unretired, never pulled or not within the delay, that no other such row was submitted before; and with nothing exactly if there is none |
| History.WhoIsPushed | submission_queue/models.py:53-63 | A worker takes exactly a row submitted to its own push queue, unretired, never pushed or not within the delay, that no other such row was submitted before |
| History.WhoIsRetired | submission_queue/management/commands/retire_failed_submissions.py:36-50 | The retire commands take exactly unretired rows, the one for failures those with failures at the limit |
| History.QueueLengthIs | submission_queue/models.py:24-28 | The queue length is the number of rows that could be handed out then |
| History.EveryHandoutGoesHome | submission_queue/consumer.py:125-142 | In every run a pull or delivery is of a row submitted to the queue it was made for, and a delivery goes to the URL the settings have for that queue |
| History.KeysAgree | submission_queue/lms_interface.py:70-96 | Two callbacks share a key exactly if they are alike in their first 128 characters and of one length or both longer |
| Reporting.PostsBudget | submission_queue/consumer.py:60-71 | A report makes one to five posts, only the last can succeed, and it succeeds exactly if the report does |
| Reporting.PostsSucceedOnce | submission_queue/consumer.py:60-71 | A report has one successful post or none |
| Reporting.PostsAreAttempts | submission_queue/consumer.py:60-71 | Each post is one attempt, with the answer to it |
| Interleaving.EveryInterleavingKeepsRowsOk | submission_queue/ext_interface.py:64-72 | Under every interleaving of reads and stale full-row saves, every row and every copy in flight keeps the row invariant and its key matches its pull time |
| Interleaving.EveryInterleavingKeepsIdentity | submission_queue/models.py:96-109 | Even stale saves, and saves of deleted rows, leave in each row what the submit call with its id passed, column by column |
| Interleaving.CopiesKeepIdentity | submission_queue/models.py:96-109 | And so does every copy in flight |
| Interleaving.EverySharedPostIsExplained | submission_queue/consumer.py:42-63 | Under every interleaving, every post carries the header of an earlier submission, and its body is a result accepted for that row, its push grader's reply, or the fixed message |
| Interleaving.FencingUnderInterleaving | submission_queue/ext_interface.py:131-143 | Even then a row accepts exactly the key issued to it at the pull time it shows |
| Interleaving.UpToDateSavesAreAtomic | submission_queue/ext_interface.py:112-132 | If every save is of a copy the table still shows, and no insertion finds an unretired row with its key, overlapping handlers do to table, clock and log what some run of whole handlers does |
| Interleaving.RunsAreSchedules | submission_queue/ext_interface.py:57-72 | And every run of whole handlers is a schedule of their halves, with the same table, clock and log |
| StaleSaves.LiveChange | submission_queue/lms_interface.py:70-96 | One act changes the unretired rows of a key by exactly these rows: an insertion, a reopening result or a reviving save adds one that was not among them, and a retirement or removal takes its row away |
| StaleSaves.SupersessionUnderOverlap | submission_queue/lms_interface.py:86-96 | Under every interleaving, a key's unretired rows are those inserted, reopened and revived since its last invalidation, less those that left |
| StaleSaves.OneLiveUnderOverlap | submission_queue/lms_interface.py:86-96 | At most one row of a key is unretired throughout a schedule if and only if every insertion, reopening and revival of the key finds none |
| StaleSaves.StaleSaveReopens | submission_queue/management/commands/retire_failed_submissions.py:48-60 | A save brings a row back exactly if the row was retired since it was read and the handler is a pull or an unacknowledged retirement |
| StaleSaves.FailuresAreOnRecord | submission_queue/ext_interface.py:152-155 | The failure count in the table is the number of failed results and unreachable pushes on the row's line of saves: since its last save, and before that up to the reading of the copy that was saved |
| StaleSaves.CountSinceLastSave | submission_queue/consumer.py:152-162 | It is the count in the last saver's copy, plus what that save counts, plus the results that failed since |
| StaleSaves.NoFailureIsMadeUp | submission_queue/ext_interface.py:152-155 | Failures can be forgotten, but no more are counted than happened |
| StaleSaves.StaleSaveForgetsFailures | submission_queue/consumer.py:152-162 | A save lowers the count exactly if the table's line of saves has more failures on record than the line its copy was read from plus what it counts itself; if nobody else saved the row since the read, exactly if more results failed since the read than the save counts |
| StaleSaves.FailureForgotten | submission_queue/ext_interface.py:57-72 | That happens from the empty table on: a result fails while a second pull is in flight, and saving the pull forgets it |
| StaleSaves.LeaseSpacingUnderOverlap | submission_queue/models.py:76-82 | Overlapping pulls of a row keep their distance, j - i delays between the i-th and the j-th, if each saved a copy showing the pull saved last, whatever other handlers save and however late |
| StaleSaves.LeaseIsKeptExactly | submission_queue/ext_interface.py:57-72 | For pulls that save well within a lease of a read that showed the last pull then, this is exact: they keep their distance if and only if each copy still shows the last pull when it is saved |
| StaleSaves.OthersSeenIsEnough | submission_queue/models.py:76-82 | Reads show the last pull as long as no other handler saves an older pull time over it |
| StaleSaves.StalePullUndoesSupersession | submission_queue/ext_interface.py:57-72 | A pull saved after its row was superseded leaves two unretired rows with one key |
| StaleSaves.StalePullsShareALease | submission_queue/ext_interface.py:57-72 | Two overlapping pulls of a row are both saved, and break the spacing if the second is dated within the lease of the first |
| StaleSaves.BothAnomaliesOccur | submission_queue/ext_interface.py:57-72 | A supersession undone and a lease shared, from the empty table on, with one submission and two requests |
| Handlers.Xqueue.PostGradeToLms | submission_queue/consumer.py:42-71 | The retry loop posts and answers as `Posts` and `Delivered` say |
| Handlers.Xqueue.DeliverSubmission | submission_queue/consumer.py:125-162 | One round of a worker sends the body and files of the oldest pushable row of its queue to the queue's grader and is an in-turn `Deliver` step, or finds no unretired row of the queue that was never pushed or is due again |
| Handlers.Xqueue.GetSubmission | submission_queue/ext_interface.py:44-109 | A pull is an in-turn `Pull` step; the reply carries the hash of the pull time and the id, which is then the row's key, the body and the files; the lease is taken even if the files cannot be fetched |
| Handlers.Xqueue.PutResult | submission_queue/ext_interface.py:112-169 | A result is a `PutResult` step, with the three replies told apart |
| Handlers.Xqueue.Settle | submission_queue/ext_interface.py:145-165 | Reporting, counting and retiring give the row `Returned` |
| Handlers.Xqueue.InvalidatePriorSubmissions | submission_queue/lms_interface.py:86-96 | The bulk update is the step of a submission that gets no further |
| Handlers.Xqueue.Submit | submission_queue/lms_interface.py:22-83 | A submission is a `Submit` step with the encoded file columns; the reply counts every available row, the new one included |
| Handlers.Xqueue.RetireSubmissions | submission_queue/management/commands/retire_failed_submissions.py:48-60 | The loop over one queryset is a run of `RetireFailed` steps, exactly one for each row at the limit, with exactly their posts, and changes no other row |
| Handlers.Xqueue.RetireFailedSubmissions | submission_queue/management/commands/retire_failed_submissions.py:30-46 | The command is one such pass over all queues, or one for each named queue in turn: each with one step for every row then due and no other, and exactly their posts |
| Handlers.PassesPostsAre | submission_queue/management/commands/retire_failed_submissions.py:48-60 | A forced command posts nothing, and any other only failure messages |
| Handlers.SweepPostsAre | submission_queue/management/commands/retire_old_submissions.py:42-48 | Every post of a pass is the failure message with the header of one of its rows |
| Handlers.PassesRetire | submission_queue/management/commands/retire_failed_submissions.py:30-60 | Of the passes' queues exactly the failed rows at the limit are retired, all by force, otherwise those with an acknowledged message in some pass; nothing else of a row changes, and no other row |
| Handlers.CommandRetires | submission_queue/management/commands/retire_failed_submissions.py:30-60 | By the command's arguments: a row with failures at the limit is retired if no queue is named or its own is, by force or with an acknowledged message |
| Handlers.Xqueue.RetireOldSubmissions | submission_queue/management/commands/retire_old_submissions.py:30-48 | Exactly the chosen rows are retired, whatever the LMS answers, by a run of one `RetireOld` step each, with exactly their posts |
| DeleteOld.Handle | submission_queue/management/commands/delete_old_submissions.py:52-90 | While any steps of other handlers run between its transactions, the loop ends; a row there at the start is gone exactly if it arrived no later than `days_old` days of 86 400 seconds before the command began, their number is counted, and the transactions of at most a chunk are as few as can be |
| DeleteOld.DeletionsCommute | submission_queue/management/commands/delete_old_submissions.py:82-84 | Any run leaves the rows, ids and clock as it would without its deletions, except that the deleted rows are gone |
| DeleteOld.BystandersKeepRows | submission_queue/management/commands/delete_old_submissions.py:67-77 | Other handlers' steps, submissions that supersede old rows included, neither add to nor take from the rows to delete, and remove no row |
| DeleteOld.DeleteChunk | submission_queue/management/commands/delete_old_submissions.py:78-84 | A transaction removes as many old rows as fit the chunk, and nothing else |
| DeleteOld.ProgressStep | submission_queue/management/commands/delete_old_submissions.py:77-88 | A transaction and the steps after it keep the account of rows gone and rows left |
| DeleteOld.RoundsAre | submission_queue/management/commands/delete_old_submissions.py:77-88 | Full chunks but the last are ceil(n / chunk) of them |
| SharedAccounting.ReinsertedRowsAreDeletedToo | submission_queue/management/commands/delete_old_submissions.py:71-88 | With handlers overlapping the deletion, the old rows removed are those there at the start plus those that stale saves bring back, less those still there |
| SharedAccounting.SharedDeliveryBudget | submission_queue/consumer.py:60-71 | However handlers overlap, at most five posts and at most one successful post per report |
| SharedAccounting.EverySharedHandoutGoesHome | submission_queue/consumer.py:125-142 | However handlers overlap, a saved pull or delivery is of a row submitted to its queue, and a delivery leaves that queue's own grader in the row |
| SharedAccounting.PushGetsOneChanceUnderOverlap | submission_queue/consumer.py:125-162 | However handlers overlap, a submission never pulled is delivered at most once if and only if no two deliveries of it overlap |
| SharedAccounting.NothingRetiresUnaccountedUnderOverlap | submission_queue/consumer.py:148-160 | However handlers overlap, a retired row was acknowledged, used up its failures, or has a reason on its line of saves since it last reopened; and a row with a reason is retired |
| Supervisor.Command.constructor | submission_queue/management/commands/run_consumer.py:23-30 | One worker for each push queue, in order |
| Supervisor.Command.Monitor | submission_queue/management/commands/run_consumer.py:44-72 | Workers without an exit code stay, in order; those with a positive code have, one for one, fresh successors with their queue and URL; the others are gone |
| Supervisor.SupervisorInvariant | submission_queue/management/commands/run_consumer.py:37-72 | Over any monitor calls and exit codes, at most one worker per queue, and workers exactly for the push queues of which no call saw a code of zero or less |
| Supervisor.MonitoredHas | submission_queue/management/commands/run_consumer.py:48-72 | After a call a job is there if and only if it was and its code is none or positive |
| Supervisor.PushJobsKeepOrder | submission_queue/management/commands/run_consumer.py:23-30 | The workers start in the order of the settings |
| QueueMetrics.Grouper.NextRow | submission_queue/management/commands/count_queued_submissions.py:172-176 | A row of the zip takes the next n items of the shared iterator, and the zip ends when they are used up |
| QueueMetrics.SendMetrics | submission_queue/management/commands/count_queued_submissions.py:100-116 | The batches concatenate to the counts, are nonempty, hold at most ten, and number ceil(m / 10) |
| QueueMetrics.MetricsAddUp | submission_queue/management/commands/count_queued_submissions.py:43-49 | The counts of a grouping add up to the number of unretired submissions |
| Json.RoundTrip | submission_queue/lms_interface.py:58-67 | Loading what was dumped gives back every dictionary of strings and dictionaries |
| Json.TextRoundTrip | submission_queue/lms_interface.py:58-59 | Escaped text, surrogate pairs included, parses back to itself |
| Json.DumpsIsAscii | submission_queue/lms_interface.py:58-59 | Dumped dictionaries have printable ASCII characters only |
| Json.EscapedIsAscii | submission_queue/lms_interface.py:58-59 | A character is dumped as one, two, six or twelve, which the column limit counts |
| FileDicts.FileDictRoundTrip | submission_queue/ext_interface.py:76-103 | A grader is sure to get exactly the dumped URLs if and only if the dictionary overflows its column or no file name or URL contains the marker |
| FileDicts.InlineRoundTrip | submission_queue/ext_interface.py:82-103 | For an inline column: the column itself without the marker; an uncaught error with the marker and no file of that name |
| FileDicts.OverflowRoundTrip | submission_queue/lms_interface.py:61-67 | An external dictionary comes back through its stored document |
| FileDicts.OverflowFetchFails | submission_queue/ext_interface.py:83-101 | A failed fetch of the document, and nothing else, is told to a grader as such |
| FileDicts.ColumnsAre | submission_queue/lms_interface.py:58-67 | The columns are the dumped dictionaries up to 1024 characters, and beyond that one entry each for the document stored under the hash of the header and the dumped names |
| FileDicts.EntriesName | submission_queue/lms_interface.py:52-56 | A file's key is the hash of the header and its name, and its URL that of the key under its queue |
| FileDicts.StoredFile | submission_queue/lms_interface.py:158-166 | A file is stored under its own path, unless a later one has the same |
| FileDicts.MarkerInColumn | submission_queue/ext_interface.py:82 | The marker occurs in the dumped column exactly if it occurs in some file's name or URL |
| FileDicts.ColumnsFit | submission_queue/lms_interface.py:58-67 | Checking the URL column bounds the key column too; external columns fit exactly if the escaped URL has at most 994 characters |
| FileDicts.Storage.EncodeFiles | submission_queue/lms_interface.py:50-67 | The upload loop computes the two columns, and leaves the files and any document in storage |
| FileTrip.FilesReachTheGrader | submission_queue/lms_interface.py:50-77 | In any run, as long as the row exists and the storage still serves what was uploaded, a grader gets exactly the dumped URLs, if the dictionary overflowed or nothing mentions the marker |
| FileTrip.FileIsServed | submission_queue/lms_interface.py:158-166 | And each file's URL serves its content |

## Left out

- HTTP transport, sessions, authentication, logging, New Relic and CloudWatch clients: no property of submissions.
- Request validation (`_is_valid_request`, `_is_valid_reply`): the model starts from the parsed queue, callback, header, id and key.
- MD5: an arbitrary function with nonempty values; fencing assumes that it has no collision on the texts issued, and only these texts are proved distinct.
- The database: queries are filters over a map with ties broken arbitrarily; column truncation by the database is not modelled; ids are never reused.
- Storage back ends: a map from paths to contents; renaming a file whose path is taken is not modelled.
- FileDicts.FilesForGrader: json.loads accepts only strings and objects of them here, so a fetched document with numbers or arrays counts as an uncaught error; the documents that `submit` stores have none.
- Json.ParseUnicode: a lone surrogate is rejected, because a Dafny character cannot hold one.
- FileDicts.Setup: upload paths are joined as on POSIX; a fetch that raises something other than a connection error or timeout is not told apart from one that does.
- Crashes between a post to the LMS and the save that follows it: a handler that is given up at the split level (`Abandon`) has posted nothing.
- `put_result` is one act at the split level, because it holds the row's lock from its query to its save.
- Handlers.Submission: `put_result` and the retire commands keep their copy of a row for one call; the model does not share one object between handlers.
- DeleteOld.Handle: the steps between its transactions exclude a second deletion, whose rows this command would not count, and submissions in the very microsecond of the cut-off (possible only with `days_old` 0), with which the loop would have no fixed amount of work; they are whole handlers. What a handler adds that saves a row deleted since it was read is counted by `ReinsertedRowsAreDeletedToo`, without the loop.
- Real processes: exit codes are inputs of the monitor, and `sleep` is the gap in which other steps happen.
- CloudWatch alarms, `pretty_print_queues`, `update_users`, login views, settings modules and `xqueue_client.py`: nothing hard to state.
