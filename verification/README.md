# SBackup: verified model

SBackup runs scheduled restic backups of files and databases, keeps its run history and an outbox in
SQLite, notifies people, and reports each run to a monitor. This project models the parts of it that are
hard to get right and proves what they promise, for all inputs, all runs and all interleavings.
`dafny verify dfyconfig.toml` checks everything.

## The parts

**Reporting, end to end.** `Monitor` is the server: its two critical sections, the nonce table, the log of
the newest 10000 reports, the fold into per-job state and the rollback. `History` says what that state means
as a function of everything accepted. `Serving` runs one monitor: concurrent requests between whose two
sections anything may happen, saves that fail before or after the rename, restarts, and power losses that
leave any version of the file not yet replaced durably. `Delivery` adds the clients, the outbox, any number of
concurrent maintenance runs, and a network that loses, delays and repeats. `Limits` holds concrete runs that
show where the guarantees end. `Registration` puts the processes that register nodes beside the server.
`Maintenance` is the loop that drains the outbox.

**Runs and locks.** `RunLifecycle` is `RunWithMode` with its early exits, its saved phases and its callbacks;
what restic, the dumps, the disk and the database answer is an input. `Locks` is the lock directories, first as
one process uses it, then for any number of processes. `ValidRuns` connects runs with the configuration.

**Storage that survives.** `Files` is a file system with what processes see and what a power loss may leave,
and the routine that the program has three times: write a temporary file, sync, rename, sync the directory.
`Saving`, `StateFile` and `Remotes` build the three uses on it; `Remotes` also has the concurrent calls on one
rclone configuration. `Store` is the run and outbox tables, `Timestamps` the text that times are stored as and
its order, `Backoff` and `Retries` the retry delays over many passes, `Recovery` the choice of the recovery
notice over the history of a job, `Identifiers` the IDs.

**Texts.** `Redaction` (the secret pattern with its matching rules), `Commands`, `Escaping`, `Schedule` and
`Config` (the validator and the lookups). `Text` and `Sequences` have what they share, `Wrappers` an option type.

## What the proofs found

- A failed save puts back the node as the first critical section saw it (internal/monitor/server.go:146, 198,
  238). If another report about that node was saved in between, its update is lost although its event stays
  in the log (`Limits.OverlappingFailureLosesUpdate`). `Serving.ViewIsFoldExactlyWhen` gives the exact condition
  over runs, `Serving.ViewEqualsFold` one that can be read off the history.
- A save may rename and then fail to sync. After a restart the server treats that event as logged and answers
  a retry with success; a power loss may then take the event away (`Limits.AcknowledgedEventLost`). Conservation
  is therefore stated for executions without a power loss that forgets an event which was answered with success
  or which no client has any more; `Delivery.MoveKeepsInvExactlyWhen` shows that this is exact, and
  `Delivery.DurableRestartsAreSafe` that only a restart after an unsynced save can lead there.
- A timestamp ahead of the server's clock may outlive its nonce: `Limits.NonceReusedExactlyWhen` says exactly when
  a nonce can be used again. Up to five minutes ahead, the second request must spend the rest of the five minutes
  between its two checks (`Limits.FarTimestampReusesNonce`). A timestamp further ahead than a 64-bit duration can
  tell is always fresh (`Monitor.FreshExactlyWhen`), and its nonce is free again after ten minutes
  (`Limits.SaturatedTimestampReusesNonce`). The second request carries another event; the same one would be
  answered as a duplicate.
- Nodes are registered by a separate process that loads the state file and saves its copy. Beside a running server
  it may take an answered event out of the file (`Registration.OtherProcessTakesEvent`), and the server's next save
  takes the registration out (`Registration.ServerTakesRegistration`). Both have their exact condition.
- The event log forgets after 10000 acceptances; a retry later than that is folded in again
  (`Limits.LateRetryFoldsTwice`), and only such a retry is (`Serving.FoldedOnceExactlyWhenTimely`).
- A process that cannot use a lock file in the first directory takes that lock in the second, where it sees none
  of the locks of the others (`Locks.TwoDirectoriesShareNothing`, `Locks.OneJobTwiceExactlyWhen`,
  `Locks.BoundIsReached`).
- Two times within one second may be stored in the reverse order (`Timestamps.SameSecondOrder`); a whole second
  always is (`Timestamps.WholeSecondComesLast`).
- When maintenance passes overlap, an attempt may go uncounted (`Retries.TwoPassesCountOnce`);
  `Retries.CountsExactlyWhenNotOvertaken` says when.
- The MySQL option file does not quote its values: a password with `#` is cut there, and blanks or quotes around a
  value are lost (`Escaping.NumberSignCutsPassword`, `Escaping.OptionValueRoundTripExactlyWhen`).
- A retention of more than 106751 days wraps around (`Config.WholeDays`), and negative retention counts can get
  a policy past the check for emptiness although it keeps nothing (`Config.RetentionCheck`,
  `Config.NegativeCountGetsThrough`).
- Clock times such as `+1:-0` pass the check for `HH:MM` (`Schedule.IsClock`, `Schedule.SignedClockPasses`), but no
  moment matches them, so the timer never fires for them (`Schedule.TimerFiresExactlyWhen`). A calendar expression
  with a line break inside passes the validator and makes no timer (`Schedule.BrokenExpressionPasses`,
  `Schedule.CheckedMakesATimerExactlyWhen`).
- The command line in the log is redacted for fewer words than the rest of the log: `passwd=abc` is shown
  (`Commands.PasswdIsShown`, `Commands.ShownNormalExactlyWhen`).
- Nodes whose IDs contain a colon may share the key of a nonce, and then one report is refused as a replay of the
  other (`Monitor.NonceKeysMeet`, `Monitor.NonceKeysDiffer`).
- A reader of the password file that only drops backslashes does not get a line break back
  (`Escaping.PgpassRoundTrip`).
- docs/MONITOR-PROTOCOL.md says that answers 400, 401 and 413 are not retried, that 409 reports an event ID with other
  content, and that IDs are UUIDv7. The code queues and retries after every answer that is not 2xx, never
  sends 409, takes any event with a logged ID for a duplicate, and makes IDs from the clock. The model
  follows the code.

## Model

| member | source | states |
|---|---|---|
| `Delivery.Conservation` | internal/report/client.go:116-123 | In every state of clients, maintenance runs, network and monitor that executions without an unsafe power loss reach, each event given to `SendOrQueue` is in the persisted history, queued, being sent, pruned, skipped because monitoring is off, reported as an enqueue error, or held by a client that was stopped while sending it |
| `Delivery.MoveKeepsInvExactlyWhen` | internal/report/client.go:97-123 | A power loss is unsafe when it forgets an event that was answered with 2xx or that no client has any more. This is exact: from every state in order, a move leads to a state in which answers and events are accounted for if and only if it is safe |
| `Delivery.DurableRestartsAreSafe` | internal/monitor/server.go:322-360 | An execution in which no restart loads an event that some version of the state file which may survive lacks has no unsafe power loss, whatever power losses leave |
| `Delivery.AcknowledgedMeansPersisted` | internal/report/client.go:97-106 | In those states a 2xx answer that a client sees, for a direct send or a retry, means that the monitor's file holds that very event |
| `Delivery.RowLeavesOnlyWhen` | cmd/sbackup/main.go:735-763 | There an outbox row goes only when its event is persisted, by a send skipped because monitoring is off, or by pruning |
| `Delivery.ExecutionFoldsOnce` | cmd/sbackup/main.go:735-763 | Over every interleaving of sends, lost answers, concurrent retries, failed saves, restarts and power losses of any kind, no event is folded in twice if and only if no request writes an event that it repeats after 10000 others were accepted |
| `Delivery.DeliveredExactlyOnce` | internal/report/client.go:116-123 | When the outbox is empty, nothing is in flight or given up, no power loss was unsafe and every repetition came before 10000 other acceptances, each given event is exactly once in the persisted history, and nothing else is |
| `Serving.LogsNeverRepeat` | internal/monitor/server.go:190-195 | Whatever fails, no log in memory, or in anything the file may turn out to hold, has an event ID twice |
| `Serving.LoggedWhileRecent` | internal/monitor/server.go:233-236 | An accepted event is found in the log exactly while fewer than 10000 others were accepted after it |
| `Serving.DuplicateExactlyWhileRecent` | internal/monitor/server.go:184-236 | A retry of an accepted event under an unused nonce is answered as a duplicate if and only if fewer than 10000 others were accepted since; and if its save succeeds the history stays free of repetitions if and only if that is so |
| `Serving.FoldedOnceExactlyWhenTimely` | internal/monitor/server.go:184-245 | Over every run no event is folded in twice, in memory or in anything the file may turn out to hold, if and only if no request that may write repeats an event after 10000 others were accepted |
| `Limits.LateRetryFoldsTwice` | internal/monitor/server.go:233-236 | For every number of other acceptances from 10000 on, a run in which the event before them is retried after them and folded in again |
| `Serving.ViewIsFoldExactlyWhen` | internal/monitor/server.go:198-243 | Over every run memory, and everything the file may hold, is the fold of its own history of registrations and accepted events if and only if every request whose save fails puts back its node as the history has it |
| `Serving.ViewEqualsFold` | internal/monitor/server.go:198-243 | So it is, and every node and every job shows what the registrations and events say, when nothing about the node of a request whose save fails was accepted between its two critical sections |
| `Serving.FailedSaveKeepsViewExactlyWhen` | internal/monitor/server.go:198-243 | A failed save leaves the view equal to the fold if and only if what was accepted between the two critical sections of its request left that node as it was |
| `Serving.UntouchedNode` | internal/monitor/server.go:145-148 | It does so whenever nothing about that node was accepted in between |
| `Limits.OverlappingFailureLosesUpdate` | internal/monitor/server.go:237-242 | A run in which the rollback to the first section's snapshot undoes another request's update although its event stays in the log |
| `Serving.ReplayRefusedExactlyWhen` | internal/monitor/server.go:184-197 | Over every run the second critical section refuses a request as a replay if and only if a report with the same node and nonce was committed in this lifetime of the server, less than ten minutes before the nonce check |
| `Serving.ReplayRefused` | internal/monitor/server.go:184-197 | So a repeat of a committed node and nonce is refused whenever the time between its two checks and the lead of its timestamp over the clock at the commitment are less than five minutes together |
| `Limits.NonceReusedExactlyWhen` | internal/monitor/server.go:141-197 | For every timestamp, time of commitment and time between the checks, some run commits a second report with the same node, nonce and timestamp in the same lifetime if and only if those two are at least five minutes together |
| `Limits.FarTimestampReusesNonce` | internal/monitor/server.go:141-160 | An instance at the edge for every timestamp up to five minutes ahead of a commitment made at once |
| `Limits.SaturatedTimestampReusesNonce` | internal/monitor/server.go:141-160 | For every timestamp from 9300000000 on, whose difference from the clock saturates, a run in which both requests are checked at once, ten minutes apart, and both are committed |
| `Monitor.FreshExactlyWhen` | internal/monitor/server.go:141 | The freshness check admits exactly five minutes to either side and, since `abs` of the smallest duration is negative, every timestamp so far ahead that the difference saturates |
| `Monitor.SaturatedIsFresh` | internal/monitor/server.go:141 | At the start of 1970 the timestamp 9300000000 is fresh |
| `Monitor.NonceKeysDiffer` | internal/monitor/server.go:184-196 | The keys of the nonce table tell nodes and nonces apart as long as no node has a colon in its ID |
| `Monitor.NonceKeysMeet` | internal/monitor/server.go:184-196 | The node `a:b` with nonce `c` and the node `a` with nonce `b:c` have one key |
| `Serving.AnsweredIsHeld` | internal/monitor/server.go:190-244 | A 2xx answer, also one that says duplicate, means that the history holds an event with that ID |
| `Serving.StepKeepsEvents` | internal/monitor/server.go:322-360 | An event in the history stays there through every step but a power loss that leaves a version of the file without it |
| `Serving.PowerLossKeepsEventsExactlyWhen` | internal/monitor/server.go:322-360 | No power loss can take an event from memory if and only if the server is not exposed: no version of the file that may survive lacks an event that memory holds |
| `Serving.ExposedExactlyAfter` | internal/monitor/server.go:351-359 | A server becomes exposed exactly by a restart that loads an event which some version of the file that may survive does not have |
| `Limits.AcknowledgedEventLost` | internal/monitor/server.go:351-359 | A run in which exactly this makes an acknowledged event disappear |
| `History.LogIsNewest` | internal/monitor/server.go:233-236 | The log is the newest 10000 of the accepted events |
| `History.ViewIsFold` | internal/monitor/server.go:203-232 | A node has a job entry exactly for the jobs that its accepted events are about, and the entry is the fold of those events alone |
| `History.JobViewSummarisesHistory` | internal/monitor/server.go:213-230 | That entry shows what the last events said, the last success, and as many consecutive failures as there were `failed` events since the last `success` or `warning` |
| `History.NodeViewSummarisesHistory` | internal/monitor/server.go:203-212 | A node shows the time of the last accepted `node.heartbeat` event about it, the name last given by a registration or by an event that has one, and the secret and key version of its last registration |
| `Monitor.Server.AddNode` | internal/monitor/server.go:74-104 | Registers or re-registers a node, keeps its jobs, never leaves the job map nil, and on a failed save restores exactly what was there |
| `Serving.AcceptedWasSigned` | internal/monitor/server.go:124-183 | Over runs: every event in memory or in anything the file may hold has an ID and came in an earlier request of the node it is about, which at its first critical section was fresh and signed under the key version and the secret that the node had then |
| `Monitor.Server.Finish` | internal/monitor/server.go:184-245 | The second critical section: replay, duplicate, fold, save, and on failure the rollback to the earlier snapshot; it keeps the log free of repetitions and job maps present |
| `Monitor.Server.FoldEvent` | internal/monitor/server.go:203-231 | The in-place updates of the node copy compute the fold that the histories use: the heartbeat moves for `node.heartbeat` alone, the name for an event that has one, and no other job, secret or key version changes |
| `Monitor.Server.CloneJobs` | internal/monitor/server.go:362-368 | The copied map equals the original |
| `Monitor.Server.CleanupNonces` | internal/monitor/server.go:369-376 | Exactly the expired nonces are dropped |
| `Registration.OthersKeepTheLedgers` | cmd/sbackup-monitor/main.go:25-60 | Whatever processes that register nodes save beside the server, no log in memory or in anything the file may hold repeats an ID or differs from the newest events of its history, and each state is the fold of its history when every request whose save fails puts back its node as the history has it |
| `Registration.FileHasMemoryExactlyWhen` | cmd/sbackup-monitor/main.go:25-60 | Over every interleaving the file has every event that the server has in memory, at all times, if and only if each process that replaces the file had loaded all that memory has by then |
| `Registration.AnsweredIsInFile` | internal/monitor/server.go:190-244 | While that is so, an event that is answered with 2xx is in the file |
| `Registration.UndisturbedRegistrationsLoseNothing` | cmd/sbackup-monitor/main.go:25-60 | It is so when nothing comes into the server's memory between the load and the save of such a process |
| `Registration.OtherProcessTakesEvent` | cmd/sbackup-monitor/main.go:25-60 | A run in which a process that loaded the file earlier takes an event out of it that was answered with success |
| `Registration.RegistrationStaysExactlyWhen` | internal/monitor/server.go:74-104 | A registration saved with success stays in the file if and only if everyone who replaces the file later has loaded it by then or makes the same one |
| `Registration.ServerTakesRegistration` | cmd/sbackup-monitor/main.go:25-60 | A run in which the next report that the server commits takes the registered node out of the file |
| `StateFile.SaveLocked` | internal/monitor/server.go:322-360 | At every point at which the save may stop, a crash leaves the old or the complete new state; success makes it durable |
| `StateFile.SaveRefinesWrite` | internal/monitor/server.go:322-360 | Every outcome of the save on the file system is one of the outcomes that the runs of the server allow |
| `Files.Volume.WriteFileAtomic` | internal/config/config.go:265-297 | Temporary file, sync, rename, directory sync, with every primitive free to fail: other names are untouched, the target is as before or complete at every step, and success is durable |
| `Saving.Save` | internal/config/config.go:233-263 | The whole save with its lock file and its backup, safe at every intermediate state; every other name, the lock file included if it was there, is kept |
| `Saving.CrashLeavesOldOrNew` | internal/config/config.go:233-297 | From any state of the disk, stopping or losing power at any step leaves the path with the complete new contents or with what could have been left of it before, `.bak` with the old contents or with what could have been left of it before, and the old contents in `.bak` whenever the path has become new |
| `Saving.OldOrNewExactlyWhen` | internal/config/config.go:233-297 | So the path has its complete old or complete new contents at every stop if and only if nothing else could be left of it before |
| `Remotes.ConfigureWebDAV` | internal/repository/webdav.go:19-84 | Refuses bad names, line breaks and plain HTTP without touching the disk, and names that have a section leaving at most the lock file; otherwise leaves the old or the complete new file at every step, keeps the old text in `.bak`, and on success the new text is durable and a reader of rclone configurations finds the remote in it as given |
| `Remotes.NewContentAddsASection` | internal/repository/webdav.go:55-75 | The new text has all non-empty lines of the old one in order, then the section; it opens sections for the new name and for nothing else but what further lines of the obscured password open |
| `Remotes.NewRemoteIsRead` | internal/repository/webdav.go:71-75 | A reader that finds a section by its header and splits lines at ` = ` reads type `webdav`, the address, the service or `other`, the user and the password under the new name, and every key of every other name as before |
| `Remotes.ArgumentsAcceptedExactlyWhen` | internal/repository/webdav.go:19-40 | The arguments are accepted if and only if the name is 1 to 64 letters, digits, hyphens and underscores, there is a path, the address is an HTTPS one, and address, service and user have no line break |
| `Remotes.NoRemoteIsLost` | internal/repository/webdav.go:42-84 | For every interleaving of concurrent calls, failures and kills: each call that succeeded has exactly one header and reads back as given, no written name has two, other names keep theirs and read as before, and earlier non-empty lines stay in order |
| `Remotes.HasHeader` | internal/repository/webdav.go:60-64 | The loop over the lines finds a section exactly when there is one |
| `Store.RowIsFirstIdentityAndLastState` | internal/store/store.go:94-107 | After any saves a new row has the job and start of its first accepted save and everything else of its last |
| `Store.Store.SaveRun` | internal/store/store.go:94-107 | Upsert of one row; a run without a start is refused |
| `Store.Select` | internal/store/store.go:215-219 | An ordered, limited query: as many rows as allowed, in order, none passed over that strictly precedes one returned, ties in any order |
| `Store.Store.RecentRuns` | internal/store/store.go:109-139 | The runs of one job or of all, newest first, at most the limit, 20 if it is not positive |
| `Store.Store.LastCompletedBefore` | internal/store/store.go:191-203 | The latest run of the job that is not the given one and not running, if there is one |
| `Store.Store.Enqueue` | internal/store/store.go:205-214 | A new row with no attempts, due at once; a duplicate ID is refused |
| `Store.Store.DueOutbox` | internal/store/store.go:215-235 | The due rows, oldest first, at most the limit, 100 if it is not positive |
| `Store.DueMissesNothing` | internal/store/store.go:215-219 | No due row is passed over unless the limit is used up by rows at least as old |
| `Store.DueWithinASecond` | internal/store/store.go:215-235 | A row due a full second ago is a candidate, one due a full second ahead is not |
| `Store.Store.CompleteOutbox` | internal/store/store.go:243-246 | Deletes exactly the row |
| `Store.Store.FailOutbox` | internal/store/store.go:248-252 | Sets attempts, next attempt and error of the row, and does nothing if it is gone |
| `Store.Store.Prune` | internal/store/store.go:265-284 | Each of the three deletions happens fully or, if it fails, not at all, and the others still run |
| `Store.PruneKeepsExactlyWhatFits` | internal/store/store.go:273-282 | At most the cap remains; every row within retention and cap stays unchanged, every row outside goes, and no row that the cap removed is newer than one that stays |
| `Store.PruneKeepsTheNewestRuns` | internal/store/store.go:267-271 | The same for the runs |
| `Store.PruneIsIdempotent` | internal/store/store.go:265-284 | Pruning again with the same cutoff changes nothing, however ties were broken |
| `Store.RetentionWithinASecond` | internal/store/store.go:272-277 | The retention removes what is a full second past it and nothing that is a full second short of it |
| `Timestamps.DifferentSecondsOrder` | internal/store/store.go:79-84 | Stored times in different seconds compare as text exactly as in time, for all years up to 9999 |
| `Timestamps.SameSecondOrder` | internal/store/store.go:79-84 | Within one second they do so if and only if neither trimmed fraction is a proper prefix of the other; otherwise the order is reversed (section 5.1 of RFC 3339 promises string order for equal fraction lengths only) |
| `Timestamps.WholeSecondComesLast` | internal/store/store.go:79-84 | In particular a whole second is stored as a text after those of all later times within it |
| `Timestamps.FilterWithinASecond` | internal/store/store.go:219 | A text comparison with the present time is off by less than a second |
| `Timestamps.FourDigitYears` | internal/store/store.go:83 | The times with a year of at most four digits are exactly those before day 3652425 |
| `Timestamps.DateCounts` | internal/store/store.go:83 | The calendar date of a day number is the one that many days after the start, with a valid month and day |
| `Timestamps.StoredRoundTrip` | internal/store/store.go:79-84 | A reader of RFC 3339 texts in UTC (section 5.6), with a calendar of its own, gets from every stored text the very instant it was made of |
| `Identifiers.IdentifiersFollowTheClock` | internal/store/store.go:293-296 | Two identifiers are equal exactly when the clock shows the same nanosecond, and otherwise ordered as the clock |
| `Identifiers.IdentifierIsTheClock` | internal/store/store.go:293-296 | An identifier is the clock in milliseconds in decimal, a hyphen, and the clock in nanoseconds in hexadecimal |
| `Backoff.DelayIsCappedPower` | internal/store/store.go:254-263 | The delay is min(2^n, 720) minutes for n attempts, monotone, between one minute and twelve hours, and its product fits 64 bits |
| `Backoff.DelaysAre` | internal/store/store.go:254-263 | The delays written out: 1, 2, 4 and so on up to 512 minutes, then twelve hours |
| `Retries.FailuresAreSpaced` | internal/store/store.go:215-252 | Passes that do not overlap count every failure, and failures lie at least the sum of the waits in between apart, less a second each |
| `Retries.CountsExactlyWhenNotOvertaken` | cmd/sbackup/main.go:735-763 | With overlapping passes the stored attempts equal the number of failures if and only if no pass recorded one after another pass did since it had read the row |
| `Retries.TwoPassesCountOnce` | cmd/sbackup/main.go:735-763 | Two passes that both read a row before either fails it: two failures, one attempt more |
| `Maintenance.Drain` | cmd/sbackup/main.go:726-763 | The loop hands out the due rows oldest first and completes or fails each, stopping at the first statement that is refused |
| `Maintenance.HandledOnce` | cmd/sbackup/main.go:735-763 | Of a row that is handed out: a delivered one is gone; a failed one that is still there has one attempt more than was read, the error, and the time of its failure plus the delay for that many attempts, and is otherwise as it was |
| `Maintenance.OthersStay` | cmd/sbackup/main.go:735-763 | Rows that are not handed out stay as they are |
| `Recovery.Choose` | cmd/sbackup/main.go:147-161 | A failed or warning run uses its own list; any other uses the recovery list, with the title saying so, exactly when it succeeded and the previous completed run failed or warned, and the success list otherwise |
| `Recovery.QueryFindsThePreceding` | internal/store/store.go:191-203 | Over a history with starts in different seconds the query finds the run that precedes, skipping those that stayed `running` |
| `Recovery.OneNoticePerBlock` | cmd/sbackup/main.go:149-161 | A run gets the recovery notice if and only if it is the success that closes a maximal block of failed and warning runs; blocks and closing runs correspond one to one |
| `Recovery.RecoveryClosesABlock` | cmd/sbackup/main.go:149-161 | The same for what the callback chooses from the rows in the table |
| `Locks.LockTable.Acquire` | internal/lock/lock.go:12-37 | Takes the lock in the first directory in which that lock file opens, or nothing |
| `Locks.FirstOpenIs` | internal/lock/lock.go:13-30 | The directory is the first in which the lock file opens, and there is none exactly when it opens nowhere |
| `Locks.LockTable.AcquireSlot` | internal/lock/lock.go:39-49 | Takes the first slot whose lock can be had, each slot's file being looked for in the directories anew, and fails exactly when there is none |
| `Locks.TryJobIsAcquire` | internal/lock/lock.go:12-37 | The step of a process that tries its job lock changes the table as `Acquire` does |
| `Locks.ScanIsAcquireSlot` | internal/lock/lock.go:39-49 | The steps of one process over the slots, undisturbed, come to what `AcquireSlot` comes to |
| `Locks.LockTable.Release` | internal/lock/lock.go:50-55 | Frees exactly that lock |
| `Locks.JobLocksDiffer` | internal/backup/service.go:96 | Two jobs never share a lock file |
| `Locks.LockNamesDiffer` | internal/backup/service.go:96-101 | No job shares a lock file with a slot, nor a slot with another |
| `Locks.BoundedParallelism` | internal/backup/service.go:96-105 | Over all interleavings of any number of processes, as far as their lock files are in one directory, at most one is past the lock of each job, runs have distinct slots, and at most the limit run at once |
| `Locks.BoundOverDirectories` | internal/backup/service.go:96-105 | Over a set of directories at most the limit times their number run at once |
| `Locks.BoundIsReached` | internal/backup/service.go:96-105 | For every limit and all directories a run ends with exactly that many at once |
| `Locks.GoneHoldsNothing` | internal/backup/service.go:96-105 | Every way out, being killed included, frees both locks |
| `Locks.FullOnlyAfterSeeingAllTaken` | internal/lock/lock.go:39-49 | The limit is reported only after each slot failed during that scan: its lock file opened nowhere, or another process held the lock |
| `Locks.OneJobTwiceExactlyWhen` | internal/lock/lock.go:13-30 | Two processes can be past the lock of one job at once if and only if its lock file opened for them in different directories |
| `Locks.TwoDirectoriesShareNothing` | internal/lock/lock.go:13-30 | For every positive limit, job and two directories, a run in which two processes run that job at once |
| `RunLifecycle.Service.RunWithMode` | internal/backup/service.go:84-285 | Locks are as before on every exit; before the first save nothing is stored or announced; after it the outcome is that of `Ran`: saves, callbacks, error code and status are those of the first thing that fails, and restic is asked once, with the mode, for the job's paths followed by the file that each database was dumped to, unless something fails before |
| `RunLifecycle.EveryRunEnds` | internal/backup/service.go:112-285 | A run ends completed as success, warning or failure; no error exactly for the first two, and then with a snapshot; a warning exactly when retention or check failed; each callback that is set is called once, the second unless the save of a failure is refused; stored phases only go forward |
| `RunLifecycle.SucceedsExactlyWhen` | internal/backup/service.go:146-285 | A run reports no error if and only if nothing it meets fails it; otherwise code and summary are those of the failure that everything before it went well for |
| `RunLifecycle.EveryPhaseIsSaved` | internal/backup/service.go:174-270 | Among the saves of a run are the phases that it comes to and no others, each named by what must have gone well before |
| `RunLifecycle.EveryRunBegins` | internal/backup/service.go:112-120 | The first save shows a run of the job, running in its first phase since now, scheduled for now if it was, with its log file; the callback gets the same |
| `RunLifecycle.ModeIs` | internal/backup/service.go:287-299 | The mode is the one asked for, else the job's, else `incremental`; every text but `incremental` and `full` is refused |
| `RunLifecycle.RowOfARun` | internal/backup/service.go:112-285 | The stored row keeps job and start, and after an accepted last save it is the run as returned |
| `RunLifecycle.RowAtAnyPoint` | internal/backup/service.go:112-285 | After any number of its saves the stored row has the job and start of the run and is running exactly until its phase is completed, so a run that dies leaves a running row |
| `RunLifecycle.Service.Execute` | internal/backup/service.go:106-285 | The part after the locks: saves of one run, in order of phases, and the table as those accepted leave it |
| `RunLifecycle.Service.Fail` | internal/backup/service.go:130-145 | The failure state, redacted, its save, and the callback only if that save was accepted |
| `RunLifecycle.Service.DumpAll` | internal/backup/service.go:171-182 | Stops at the first database that is unknown or fails, with its error; otherwise the job's paths are followed by the file each database was dumped to, in order |
| `RunLifecycle.Service.Prepare` | internal/backup/service.go:146-168 | The first failing check before the staging directory exists |
| `ValidRuns.ConfigErrorsComeFromTheRepository` | internal/backup/service.go:146-183 | With a valid configuration the branches for a missing storage or database are not reached: CONFIG_ERROR only comes from the repository settings |
| `ValidRuns.ValidJobsCanStart` | internal/config/config.go:301-498 | A job of a valid configuration has a mode, and there is a slot |
| `Config.Configuration.Validate` | internal/config/config.go:301-498 | Fills the four defaults in place, and returns no error if and only if identifiers are well formed and unique across the four kinds, every reference has its entry, and every part is right |
| `Config.ReferencesResolve` | internal/config/config.go:559-590 | Then each storage, database and notification lookup from a job finds the one matching entry, and the job's own lookup finds the job |
| `Config.RemovingAJob` | internal/config/config.go:301-498 | Removing a job keeps a valid configuration valid |
| `Config.RemovingADatabase` | internal/config/config.go:301-498 | Removing a database keeps it valid if and only if no job refers to it |
| `Config.HasDuplicates` | internal/config/config.go:549-558 | True exactly when two values are equal |
| `Config.ValidateID` | internal/config/config.go:536-545 | Accepts exactly a well-formed identifier not seen before, and notes it |
| `Config.Configuration.Job` | internal/config/config.go:559-566 | The first job with the identifier, or none |
| `Config.Configuration.Storage` | internal/config/config.go:567-574 | The first storage with the identifier, or none |
| `Config.Configuration.Database` | internal/config/config.go:575-582 | The first database with the identifier, or none |
| `Config.Configuration.Notification` | internal/config/config.go:583-590 | The first notification with the identifier, or none |
| `Config.WholeDays` | internal/config/config.go:501-509 | A number of whole days is exact up to 106751; the product wraps beyond, and 106752 days are accepted and come out negative |
| `Config.RetentionCheck` | internal/config/config.go:546-548 | The check for an empty policy agrees with the keep options passed to restic unless counts are negative; a policy without any option gets through exactly when no count is positive and some count is negative |
| `Config.NegativeCountGetsThrough` | internal/config/config.go:546-548 | One count of -1 and nothing else is such a policy |
| `Config.PercentIs` | internal/config/config.go:516-523 | Of the percentages exactly those from 1 to 100 are accepted |
| `Config.FractionIs` | internal/config/config.go:524-534 | Of the fractions exactly those with 1 <= N <= M are |
| `Redaction.MatchIsGreedy` | internal/executor/executor.go:202-204 | The match is the leftmost, greedy, backtracking reading of the pattern: it exists exactly when some reading does, and no reading has more separators or, with as many, a longer value |
| `Redaction.RedactedTextIsNormal` | internal/executor/executor.go:202-204 | In the output every keyword followed by separators and a value has exactly the mark as that value |
| `Redaction.SecretsAreHidden` | internal/executor/executor.go:202-204 | In the output, wherever `password`, `passwd`, `token`, `secret`, `authorization`, `accesskey`, `access_key` or `access-key` stands in any mix of case, followed by equals signs, colons and blanks and then a value, the value is the mark, after these separators or after some more that the value began with |
| `Redaction.NothingElseIsHidden` | internal/executor/executor.go:202-204 | A text in which no such word is followed by a separator stays as it is |
| `Redaction.RedactIdempotent` | internal/executor/executor.go:136 | Redacting a line when it is read and again when it is logged changes nothing further |
| `Redaction.FixedExactlyWhenNormal` | internal/executor/executor.go:202-204 | Redaction leaves exactly the texts in normal form alone |
| `Commands.SafeCommand` | internal/executor/executor.go:180-200 | Every argument is shown, and exactly those with an odd number of secret flags directly before them are replaced by the mark |
| `Commands.ValuesAreHidden` | internal/executor/executor.go:180-200 | The value of a shown flag is hidden, and an argument with a secret in it is shown in the normal form of redaction |
| `Commands.FlagsInWords` | internal/executor/executor.go:180-200 | What follows a shown `--password-file`, `--password-command` or `--key-file` in any mix of case is hidden and nothing else is, `--defaults-extra-file=` is shown without its value, and another argument without an equals sign is shown as it is |
| `Commands.SecretsOfArgumentsAreHidden` | internal/executor/executor.go:192-193 | In a shown argument the value after `password=`, `token=`, `secret=` or `authorization=` in any mix of case is the mark |
| `Commands.ShownNormalExactlyWhen` | internal/executor/executor.go:192-196 | Any other argument is shown in the normal form of redaction if and only if it has one of those four in it or was in that form already |
| `Commands.PasswdIsShown` | internal/executor/executor.go:192-196 | The argument `passwd=abc` is shown unchanged |
| `Escaping.ChainIsOnePass` | internal/database/dump.go:117-128 | The chained replacements equal one pass over the characters |
| `Escaping.PgpassRoundTrip` | internal/database/dump.go:64 | The file is one line whose five fields decode to the original ones for all texts; for a reader that only drops backslashes, if and only if none has a line break |
| `Escaping.PgpassTellsApart` | internal/database/dump.go:56-64 | Two password lines are equal exactly for equal host, port, database, user and password, defaults included |
| `Escaping.OptionFileLines` | internal/database/dump.go:83-87 | No value adds a line to the MySQL option file |
| `Escaping.OptionFileIsRead` | internal/database/dump.go:83-87 | A reader of the option file finds host, user, password and port under their own names, the values as given if and only if they fit an option |
| `Escaping.OptionValueRoundTripExactlyWhen` | internal/database/dump.go:124-128 | The client, which drops a comment, blanks and a pair of quotes around a value before it undoes the escapes (MySQL Reference Manual, section on using option files), gets a value back if and only if it has no `#` outside quotes, no blank at either end and no pair of quotes around it |
| `Escaping.NumberSignCutsPassword` | internal/database/dump.go:83-87 | The password `pa#ss` is read as `pa` |
| `Escaping.ShellQuoteRoundTrip` | internal/repository/repository.go:98-100 | A shell reads the quoted text as one word, the original (sections 2.2.1 and 2.2.2 of the POSIX Shell Command Language) |
| `Escaping.SFTPCommandWords` | internal/repository/repository.go:64-72 | The SFTP command is five words for every port and key path |
| `Schedule.IsClock` | internal/tui/menu.go:445-453 | Accepts exactly two digits on each side in range and, beyond that, a plus sign and a digit or minus zero |
| `Schedule.SignedClockPasses` | internal/tui/menu.go:445-453 | The text `+1:-0` is accepted |
| `Schedule.SplitValues` | internal/tui/menu.go:1498-1506 | The trimmed non-empty values between commas, in order |
| `Schedule.ClocksToExpressions` | internal/tui/menu.go:384-401 | One expression per distinct clock in order of first occurrence; none if the list is empty or has something else in it |
| `Schedule.AcceptedExactlyWhen` | internal/tui/menu.go:384-401 | A list is accepted if and only if it has a value and all values are clocks |
| `Schedule.TimerFiresExactlyWhen` | internal/tui/menu.go:384-401 | For a reader of calendar expressions with `*` for any date, the timer made of an accepted list fires at a moment, whatever its date, if and only if the second is 0 and hour and minute are those of a two-digit clock in the list |
| `Schedule.TimerTrigger` | internal/schedule/systemd.go:47-71 | One line per expression, or an error for an empty one, a line break or an unknown type |
| `Schedule.CheckedMakesATimerExactlyWhen` | internal/config/config.go:414-430 | A non-empty expression that passes the validator makes a timer if and only if none of its parts has a line break inside |
| `Schedule.BrokenExpressionPasses` | internal/config/config.go:414-430 | Two lines, each a letter, pass the validator and make no timer |
| `Schedule.ScheduleClocksDefault` | internal/tui/menu.go:423-443 | The clocks found in the expressions, joined, or the fallback |
| `Schedule.FirstSeenIsEachOnce` | internal/tui/menu.go:389-400 | Every distinct value exactly once |
| `Schedule.FirstSeenKeepsOrder` | internal/tui/menu.go:389-400 | In the order of first occurrences |
| `Schedule.ScheduleRoundTrip` | internal/tui/menu.go:341 | For every accepted list the stored expression passes the calendar check, the timer has exactly one line per distinct clock in that order, and what is offered for editing leads to the same expressions |

## Left out

- HTTP, TLS and SMTP: a send is delivered or not, any number of times, and its answer is seen or not.
- SHA-256 and HMAC: whether a request carries the signature of a key is part of the request.
- JSON and YAML: encoding and decoding keep the value; a body that does not decode is a request without an event.
- Notification channels, and the outbox rows for them: a send succeeds or fails.
- The texts of errors, except where they are stored or redacted: validation returns whether, not why.
- Menus, prompts, command line parsing, doctor and uninstall: user interface.
- Restore targets and paths below a root: they rest on operating system calls whose behaviour is not modelled.
- Views, summaries and labels, such as what `viewLocked` shows: they only read the modelled state.
- Running restic, rclone and the dump programs: their outcomes are inputs, and most of their arguments are not modelled; the backup request keeps its mode and its paths.
- Delivery.AcknowledgedMeansPersisted: no other process registers a node meanwhile; `Registration.FileHasMemoryExactlyWhen` says when one does no harm.
- Timestamps beyond the range of Go's `time.Unix`, whose arithmetic wraps before the difference is taken.
- The length of a key is counted in characters, not in bytes.
- What events contain beyond what the monitor folds (`EventForRun`, `Heartbeat`), and `Test`, which sends one heartbeat.
- `DeleteJobRuns`, opening and migrating the database.
- The duration column of a run, and the log file written beside it.
- Two processes that read the clock within the same nanosecond: events, nonces and rows are given distinct IDs.
- Configuration counts are unbounded integers: a sum of retention counts beyond 64 bits is not modelled.
- RunLifecycle.Service.RunWithMode: the context is cancelled only through the timeout that restic reports; warnings about progress lines are not modelled.
- Remotes.NoRemoteIsLost: assumes that `rclone obscure` prints one line; `Remotes.NewContentAddsASection` says what further lines do.
- Serving.ReplayRefused: holds within one lifetime of the server, since nonces are not stored.
- Escaping.OptionValueRoundTripExactlyWhen: the client's own reader is not part of this model; one written from the rules of its manual is. A value of one quote character is taken as it is.
- Locks.LockTable.Acquire: a `flock` call that fails for another reason than a holder counts as a file that did not open.
- Escaping.PgpassRoundTrip: PostgreSQL's own reader is not part of this model; two readers written from the format are.
- Store.Store.Prune: the retention is taken to be less than the age of the calendar, which 64 bits of nanoseconds always are.
