# Faro, verified

Faro is a DNS control plane for a home network: it compiles protection profiles into CoreDNS configuration, installs it
safely, ingests the DNS query log, replicates configuration between servers and upgrades its own database. This project
models the parts of it that must survive crashes, rotations, rollbacks and concurrent use, and proves what they keep.

| file | component |
|---|---|
| `LogLines`, `QueryLog`, `LogWriter`, `LogPipeline`, `ExactlyOnce`, `StoredLines` | the query log: rotating writer, checkpointed tailer, and exactly-once ingestion over whole runs, line by line |
| `Corefile`, `RenderedFiles`, `CorefileReader`, `InstalledPolicy`, `Apply`, `ApplyFailures` | the text of the generated files, what an engine reads in it, the transaction that installs the files over three stores, and inputs at which it falls short |
| `Schedule`, `Policy`, `PolicyAgreement`, `HouseholdRules`, `TemporalSignature`, `Decimals` | the policy compiler, the explainer beside it, what both do by the rows of the tables, and the text that decides when to render again |
| `Migrations` | schema upgrade with backup, ledger, status file and recovery |
| `Replication`, `Installation`, `Network`, `Gatekeeper` | the redundancy protocol as a transition system, the code of one server, the servers of a household following the protocol, and pairing and replay protection |
| `Devices`, `DeviceRegistry` | device identity merging |
| `Gateway` | encrypted-DNS clients across reloads, and fallback between providers |
| `BackupStream` | the chunked, authenticated backup stream |

Code that changes things step by step is modelled by classes and loops and proved against specification functions; what
the system promises is proved about those functions and over runs. Operations that can fail are free to fail at every
point: mostly by a parameter that says what every call reports, so that a contract can say exactly when an operation
succeeds and what it leaves behind; in the tailer and the device tables by a nondeterministic choice that the caller can
rule out. Tables are maps and sets, a directory
is a map from names to contents, time is an integer, and hashes, ciphers, text parsers and time zones are arbitrary
functions.

## What turned out differently

Some properties one would expect do not hold of the code. The lemmas and methods named show it at an input, and give an
exact condition where one exists.

- Commit of a capture compares the revision but not the home, so a capture overtaken by leaving and starting over is
  stored in the new home (`StaleCaptureIsCommitted`, `NamesAreKeptExactlyWhen`).
- A replica whose revision cannot be recorded after an install has newer files than it says (`UnrecordedSyncIsAhead`,
  `FilesAreOfRevisionExactlyWhen`).
- A signed request is accepted once only if it passes from its timestamp check to its nonce check within 60 seconds and
  the controller does not leave its home in between (`Finish`, `ReplayAfterStall`, `ReplayAcrossLeave`).
- Rolling back before the status file says that an upgrade is in progress, or after it says that it is complete, is not
  safe against a crash (`UnguardedRollbackCanBeLost`, `RestoreIsCrashSafe`, `Open`); a database from before the ledger with
  a user_version can end up with a gap (`GapAfterInterruptedFirstUpgrade`, `LedgerCompleteExactlyWhen`).
- The published runtime snapshot is lost when renaming over it is refused, removing it succeeds and renaming is refused
  again (`PublishedSnapshotIsLost`, `Publish`). A failed replica install leaves the new transport settings when the old
  ones would not be accepted (`NewSettingsStay`, `ApplyReplica`).
- In the middle of a rollback the restored Corefile may name a file that is not back yet (`MidRollbackIsNotClosed`,
  `RollbackIsClosedExactlyWhen`).
- A client whose device belongs to one profile while its address is assigned to another is served by whichever is
  rendered first, which need not be the one the explainer names (`ExplainerMayDisagree`, `SelectionAgreesExactlyWhen`); a
  local record at the block address looks like a block (`RecordLooksLikeBlock`,
  `ExplainerAgreesWithCompiler`).
- A device its owner has named and confirmed loses that name when it is merged into one with another name that is not
  confirmed (`ConfirmedNameMayBeLost`, `ConfirmedNameIsKeptExactlyWhen`).
- A query row can name a device that was merged away later in the same batch (`ResolvedDeviceMayVanish`, `InsertBatch`).
- Deadline shares can add up to more than the deadline when attempts fail early; time spent cannot
  (`SharesMayExceedDeadline`, `AllTriedStayWithinExactlyWhen`, `Exchange`).
- Normalizing a schedule turns days on that the schedule did not have when they are written as 01 or +1
  (`LeadingZeroTurnsOn`, `NormalizingKeepsScheduleExactlyWhen`).

## Assumptions

- The log directory does not change within one poll, retained files differ in their first lines, and a run starts from a
  stored checkpoint. `PollReady` states this for each poll, and `RunPipeline` claims exactness only for runs in which it held.
- The suffix claim is for runs without storage errors; the bounds hold with them.
- The writes of a rollback of the configuration directory succeed; the source ignores their errors.
- Only replicated configuration is installed on a replica while it is one.
- A DNS engine evaluates the view expressions and hosts lines as they are written, takes the first block that admits the
  client, and finds a directive by the first word of its line (`Understands`, `ReadBlocks`).
- One `now` is used for a render and its signature. Stored client addresses hold no line break.
- Homes, secrets, salts with nonce prefixes, and pairing ids that are drawn at random are new; a signature is made only by who holds
  the secret.
- A join does not overlap a synchronization of the same server, and a pairing reply is used by the one request it
  answers.

## Model

| member | source | states |
|---|---|---|
| `QueryLog.Tailer.ReadOpenFile` | internal/querylog/querylog.go:177-235 | Whatever fails and wherever, the position returned is a line boundary, the rows added are one for each line between start and that boundary that fits the 64 KiB buffer and parses, in order, and no other (an unterminated tail is never consumed), the stored checkpoint names that boundary, and without a failure no complete line is left; if nothing fails it succeeds |
| `QueryLog.Tailer.ReadOne` | internal/querylog/querylog.go:202-234 | One round of the loop (cancelled, read error, end of snapshot, full buffer, line) keeps: tables cover everything committed, the batch covers what was read since; every continuing round advances |
| `QueryLog.Tailer.Flush` | internal/querylog/querylog.go:190-201 | Commits the batch with its checkpoint, or leaves loop and tables as they were |
| `QueryLog.Store.InsertBatch` | internal/querylog/querylog.go:354-418 | All rows and the checkpoint become visible together, or nothing does |
| `QueryLog.LineTaken` | internal/querylog/querylog.go:206-228 | A slice that ends a line, after any number of overflowed slices, adds exactly that line's row, which RowsOfOneLine spells out, and moves the boundary behind it |
| `QueryLog.EndTaken` | internal/querylog/querylog.go:206-220 | A full buffer keeps the loop invariant; at the end of the snapshot the boundary reached is the last one |
| `LogLines.RowsOfOneLine` | internal/querylog/querylog.go:206-228 | A line gives one row, what the parser makes of it, or none when it is longer than 65536 bytes or does not parse |
| `LogLines.RowsAreLines` | internal/querylog/querylog.go:177-235 | Row by row: each row is what one complete line says, the lines are in order and do not overlap, and no line that fits and parses is missing |
| `QueryLog.IdentityIsOfTheHead` | internal/querylog/querylog.go:259-273 | A file is recognised by its first line with the newline, or its first 4096 bytes, or all of it |
| `QueryLog.PlanStopsAtGap` | internal/querylog/querylog.go:144-161 | The backups are read oldest first, and a missing one ends the poll instead of being skipped |
| `QueryLog.ShortenedFileIsReadAgain` | internal/querylog/querylog.go:127-142 | An active file that became shorter than the checkpoint is read from its start |
| `QueryLog.FirstLineReaderIsValid` | internal/querylog/querylog.go:259-273 | For every hash and every parser, the identity of a file no longer changes once it holds a complete line |
| `QueryLog.Tailer.FindRotatedIndex` | internal/querylog/querylog.go:237-257 | Returns a backup with the identity looked for, or 0 exactly when no backup has it |
| `QueryLog.Tailer.ReadAvailable` | internal/querylog/querylog.go:109-162 | The stored checkpoint wins over the cursor; a poll that ends, fails or is killed leaves the tables at some point of its plan (whole pieces, then whole lines of one piece), one that succeeds leaves them at its end, and one in which nothing fails and no file is missing succeeds |
| `QueryLog.Tailer.ReadAcrossRotation` | internal/querylog/querylog.go:144-161 | Finishes the checkpointed backup, then every newer file, oldest first; a missing file stops it without skipping |
| `QueryLog.Tailer.ReadPath` | internal/querylog/querylog.go:164-175 | Reading the next file of the plan stays on the plan, in full or not |
| `QueryLog.Tailer.ReadBackups` | internal/querylog/querylog.go:151-155 | The backups between the checkpointed and the active file are read in order, or the poll stops on the plan |
| `LogWriter.RotatingWriter.Start` | cmd/faro-logtee/main.go:68-86 | Starts exactly when every call it has to make succeeds; then the directory is bounded, every backup within the limits is kept unchanged and none is invented |
| `LogWriter.RotatingWriter.ReclaimBackups` | cmd/faro-logtee/main.go:224-257 | Removes exactly the numbered backups beyond the retained number or over the limit |
| `LogWriter.RotatingWriter.Open` | cmd/faro-logtee/main.go:167-180 | The tracked size is the length of the active file; nothing else changes |
| `LogWriter.RotatingWriter.Rotate` | cmd/faro-logtee/main.go:182-208 | If every call it makes succeeds, every name moves up by one, the oldest is dropped and the active file is empty; on a full device the newest backup is given up for a new active file, and if that fails the error is still a full device; with any error the directory stays bounded and the size true |
| `LogWriter.RotatingWriter.MoveUp` | cmd/faro-logtee/main.go:186-194 | Succeeds exactly when every rename of a file that exists does; then every file is one name higher, unless an oldest backup could neither be removed nor overwritten |
| `LogWriter.RotatingWriter.EmergencyReset` | cmd/faro-logtee/main.go:277-290 | Succeeds exactly when every call it has to make does, and then exactly an empty active file is left |
| `LogWriter.RotatingWriter.HandleStorageError` | cmd/faro-logtee/main.go:119-125 | Exactly a full device is swallowed: the file is closed and writing pauses for 30 seconds; other errors change nothing |
| `LogWriter.RotatingWriter.PrepareForWrite` | cmd/faro-logtee/main.go:102-117 | Rotates exactly when a non-empty file would grow past the limit; a closed file is reset after the pause and the line dropped during it |
| `LogWriter.RotatingWriter.Write` | cmd/faro-logtee/main.go:88-97 | For every way its storage calls can report: a line that fits goes behind the active file and nothing else changes; one that does not moves every file one name up, drops the oldest and starts the active file with the line; while paused nothing changes; after the pause, or when the device fills up and a reset goes through, exactly the new line is left; in every case the files are bounded and the size is the file's length while it is open |
| `LogWriter.WrittenIs` | cmd/faro-logtee/main.go:102-134 | The specified directory after a write, by names and contents |
| `LogWriter.RotatingWriter.RetryAfterStorageFull` | cmd/faro-logtee/main.go:136-156 | A reset that goes through and a second append leave exactly the line |
| `LogPipeline.WriteKeepsWindow` | cmd/faro-logtee/main.go:182-208 | Rotation of names is appending to the history of all files, seen through the window of the newest ones |
| `LogPipeline.WritesStayBounded` | cmd/faro-logtee/main.go:102-134 | No file exceeds the size limit or, if longer, the longest single write, over every sequence of writes |
| `LogPipeline.RotationKeepsSuffix` | cmd/faro-logtee/main.go:88-208 | For every sequence of writes the retained files, oldest to newest, are a suffix of the written stream cut only between writes, at most backups + 1 and without gaps; nothing is lost before all are in use |
| `ExactlyOnce.SearchFindsCheckpoint` | internal/querylog/querylog.go:237-257 | The identity search finds the checkpointed file wherever rotation moved it |
| `ExactlyOnce.PlanIsPieces` | internal/querylog/querylog.go:109-162 | The plan of a poll is the stream from the checkpoint on, in order, without a gap |
| `ExactlyOnce.ReachedKeeps` | internal/querylog/querylog.go:177-235 | Wherever a poll is cut off, the rows are exactly the stream up to the stored checkpoint |
| `ExactlyOnce.IngestAllCatchesUp` | internal/querylog/querylog.go:109-162 | A poll that succeeds has ingested every complete line |
| `ExactlyOnce.WriteKeeps` | cmd/faro-logtee/main.go:88-134 | An append or a rotation leaves every covered row and the checkpoint valid |
| `ExactlyOnce.ExactlyOnceOverRuns` | internal/querylog/querylog.go:109-418 | Over every interleaving of writes, rotations that retain the checkpointed file, polls, failed batches and crashes: the stored rows are in order exactly the rows of the stream between the first and the stored checkpoint |
| `StoredLines.EveryLineOnce` | internal/querylog/querylog.go:109-418 | The same line by line: in every state of every run the rows stored are, one for one and in order, what the complete lines of the log say from where the run began to the stored checkpoint, none twice and none missing |
| `StoredLines.StoredIsLines` | internal/querylog/querylog.go:109-418 | So it is wherever tables and log agree, as RunPipeline leaves them |
| `StoredLines.UptoIsLines` | internal/querylog/querylog.go:177-235 | The rows of the log up to any position are those of its lines across all files |
| `StoredLines.CaughtUpIsAllLines` | internal/querylog/querylog.go:109-162 | After a poll in which nothing failed they are those of all lines there are |
| `ExactlyOnce.RunPipeline` | internal/querylog/querylog.go:59-90 | The two pieces of code run against one directory in any schedule, with every storage call of every write given: directory and tables end as the run of worlds says, exact, as long as no storage error touches a write and every poll still finds its checkpointed file; a poll in which nothing fails catches up |
| `ExactlyOnce.ReadyRunsAreRuns` | internal/querylog/querylog.go:59-90 | Such a run of the code is one of the runs that exactly-once ingestion is proved for |
| `ExactlyOnce.EveryPollIsAStep` | internal/querylog/querylog.go:109-162 | Every way a poll can end is a step of a run: its checkpoint names a retained file, at or after the one before |
| `ExactlyOnce.FilesAreOneStream` | internal/querylog/querylog.go:177-235 | If rotated files end with whole lines, the rows of the files are the rows of everything written, read as one stream |
| `ExactlyOnce.LostExactlyWhenRowsWereBetween` | internal/querylog/querylog.go:144-161 | If a poll starts over at the active file, the rows match the new checkpoint exactly when nothing between the old one and that file held a row |
| `ExactlyOnce.StartsOver` | internal/querylog/querylog.go:144-161 | It does so when no retained file has the identity of the checkpointed one |
| `Corefile.HostFiles` | internal/coredns/coredns.go:815-837 | The line loop yields the hosts files named by the text, and an error exactly when one name is unsafe |
| `Corefile.ReferencesAre` | internal/coredns/coredns.go:815-837 | A text names exactly the files some line names by the fields hosts and /etc/coredns/ with the name, and is refused exactly when one of them has a directory in it or does not end with .hosts |
| `Corefile.DeployableIs` | internal/coredns/coredns.go:787-813 | What is asked of a set of files, in full: the two substrings, and the named files and the Corefile and no others |
| `Corefile.ManagedIs` | internal/coredns/coredns.go:839-842 | Which names are managed, by prefix and suffix |
| `Corefile.ReplicableIs` | internal/coredns/coredns.go:853-872 | What a replica accepts, with the limits in figures |
| `Corefile.ValidateGenerated` | internal/coredns/coredns.go:787-813 | Accepts exactly the sets whose Corefile serves and forwards and whose other files are exactly the ones it names |
| `Corefile.ValidateReplica` | internal/coredns/coredns.go:853-872 | Accepts exactly 2 to 64 managed, deployable files of at most 512 MiB together, in whatever order the map is walked |
| `Corefile.ReadGenerated` | internal/redundancy/manager.go:338-377 | Succeeds exactly when the Corefile names some files, all exist and the total is within the limit, and then returns exactly those files |
| `Corefile.ReadBack` | internal/redundancy/manager.go:338-377 | A directory that holds an accepted set reads back as that set |
| `RenderedFiles.ParsingUndoesRendering` | internal/coredns/coredns.go:369-427 | Parsing the rendered Corefile text gives back exactly the hosts files of its server blocks, whatever the settings and views say |
| `RenderedFiles.RenderedNames` | internal/coredns/coredns.go:476-497 | Those are the hosts files of the default profile and of every profile with clients, and no others |
| `RenderedFiles.HostsNameIsInjective` | internal/coredns/coredns.go:599-599 | Two profiles never share a hosts file |
| `RenderedFiles.RuntimeFiles` | internal/coredns/diagnostics.go:71-86 | Chooses the Corefile and exactly the files it names with their rendered contents; fails exactly when one was not rendered |
| `RenderedFiles.RenderedServes` | internal/coredns/coredns.go:369-427 | A render with a policy block serves on port 53 and forwards |
| `RenderedFiles.RenderedFilesAreClosedAndReplicable` | internal/coredns/diagnostics.go:58-86 | With a default profile the files to install always exist and pass validation; a replica accepts them exactly when there are at most 64 within 512 MiB |
| `InstalledPolicy.ReadingUndoesRendering` | internal/coredns/coredns.go:343-427 | Reading the rendered Corefile text gives back the server blocks in order, each with its view, its view expression, whether it refuses, its hosts file and its upstreams |
| `InstalledPolicy.InstalledServes` | internal/coredns/coredns.go:343-427 | An engine that is run on a directory with the rendered files does to every query what the rendered value says |
| `InstalledPolicy.TablesDecideTheAnswer` | internal/coredns/coredns.go:343-569 | From the tables to the answer: on the installed files a query of a client without a conflict is blocked exactly when its device is paused, the rules of its profile block the name, or a local record points the name at the block address |
| `Apply.ForwardPassStaysClosed` | internal/coredns/coredns.go:1212-1261 | In any state that writes the Corefile last and removes stale files after it, every hosts file named by the Corefile on disk exists |
| `Apply.EveryPassStaysClosed` | internal/coredns/coredns.go:1212-1261 | After every single rename and every removal of a forward pass, complete or cut short by a failure, every hosts file named by the Corefile on disk exists |
| `Apply.RollbackIsClosedExactlyWhen` | internal/coredns/coredns.go:1263-1272 | During rollback the directory is closed exactly when the old Corefile names no removed file that is still to be restored |
| `Apply.RollbackPoint` | internal/coredns/coredns.go:1263-1272 | Those are the directories a rollback goes through |
| `ApplyFailures.MidRollbackIsNotClosed` | internal/coredns/coredns.go:1263-1272 | Changing from one profile to another and rolling back: once the Corefile is restored it names a file that is not back yet |
| `Apply.RollbackUndoes` | internal/coredns/coredns.go:1263-1272 | From any point of the forward pass, rollback gives back exactly the directory before it |
| `Apply.CompletePassInstalls` | internal/coredns/coredns.go:1170-1261 | A complete pass leaves the managed files exactly the desired set and every other file as it was |
| `Apply.InstalledReadsBack` | internal/redundancy/manager.go:338-377 | An installed configuration is closed and reads back for replication as what was installed |
| `Apply.Manager.Snapshot` | internal/coredns/coredns.go:1150-1168 | Exactly the named files that exist, with their contents |
| `Apply.Manager.StaleFiles` | internal/coredns/coredns.go:1170-1194 | Exactly the managed files that are not desired |
| `Apply.Manager.WriteAll` | internal/coredns/coredns.go:1223-1253 | Renames the files in the given order up to the first that cannot be written; the directory after each rename is exactly the old one with the files so far, the Corefile last |
| `Apply.Manager.RemoveAll` | internal/coredns/coredns.go:1254-1259 | Removes stale files in order up to the first that cannot be removed; the directory after each removal is exactly the new one without the files so far |
| `Apply.Manager.Rollback` | internal/coredns/coredns.go:1263-1272 | Every touched name is as in the snapshot: its content, or no file |
| `Apply.Manager.Replace` | internal/coredns/coredns.go:1212-1261 | All writes and removals, or the directory as it was; the directories in between are exactly those of a forward pass up to the first failure |
| `Apply.WriteOrder` | internal/coredns/coredns.go:1213-1222 | All names once, the Corefile last |
| `Apply.Manager.Publish` | internal/dohproxy/runtime.go:108-158 | Exactly when publishing succeeds, and exactly when the previous snapshot is lost instead: rename refused, target removed, second rename refused |
| `Apply.Manager.Check` | internal/coredns/coredns.go:256-293 | Passes exactly when the files are deployable, the engine accepts them and its state can be compared |
| `Apply.Manager.Confirm` | internal/coredns/coredns.go:305-316 | Succeeds exactly when the engine reports the new configuration where a report is awaited (its state could be read before, or it runs, none was available and the Corefile changed) and the snapshot gets into place |
| `Apply.Manager.Commit` | internal/coredns/coredns.go:301-330 | Succeeds exactly when nothing fails; otherwise the directory is as before and the published snapshot too, unless it was lost |
| `Apply.Manager.Settle` | internal/coredns/coredns.go:305-330 | Keeps the files exactly when the engine follows and the snapshot is published, else puts the old directory back |
| `ApplyFailures.PublishedSnapshotIsLost` | internal/dohproxy/runtime.go:140-158 | Of any manager and whatever is applied: the first apply installs the files and publishes, the second, with renaming over the snapshot refused twice, fails and leaves none |
| `Apply.Manager.ApplyFiles` | internal/coredns/coredns.go:256-319 | The same with the gateway prepared before the files change: what was served stays available for rollback |
| `Apply.Manager.Apply` | internal/coredns/coredns.go:131-174 | Success installs exactly the files, publishes the settings and serves them, and means that an engine that could be asked has reported the new Corefile; on an error files, gateway clients and bootstrapping are as before and so is the snapshot, unless it was lost as named; with a valid configuration success is exactly what the calls report |
| `Apply.SuccessIs` | internal/coredns/coredns.go:256-319 | Exactly what success asks of the surroundings, call by call |
| `Apply.LossIs` | internal/dohproxy/runtime.go:140-158 | Exactly when the published snapshot is lost: all goes well but both renames, with the removal between them |
| `Apply.Manager.InstallReplica` | internal/coredns/coredns.go:231-254 | ApplyReplica once files and settings are accepted |
| `Apply.Manager.ApplyReplica` | internal/coredns/coredns.go:205-254 | As Apply: if files and settings are accepted and the endpoints can be built, it succeeds exactly when the checks, the changes, the engine and the snapshot go through, and loses the snapshot exactly in the case named; on an error the transport settings go back exactly when the old ones are acceptable and the transaction commits; nothing is touched if the files or settings are refused; the gateway then serves what is stored, and keeps its very clients exactly when it was in step with the old settings |
| `ApplyFailures.NewSettingsStay` | internal/coredns/coredns.go:205-254 | Of any replica whose own settings are not acceptable, whatever is sent: after a failed install the files are its own and the settings the controller's |
| `Policy.Explain` | internal/coredns/coredns.go:1278-1376 | The answer is one the explainer may give: pause first, then membership, assignment and default; ExplainedIs and DecisionIs say which by the rows of the tables |
| `PolicyAgreement.FirstCovering` | internal/coredns/coredns.go:476-497 | A client is served by the first profile in rendering order that covers it |
| `PolicyAgreement.PausedMatch` | internal/coredns/coredns.go:619-644 | A client meets a refusing block exactly when a pause of its device is in force, which PauseIs says by the two instants |
| `PolicyAgreement.SelectionAgreesExactlyWhen` | internal/coredns/coredns.go:1278-1376 | Compiler and explainer use the same profile for a client exactly when its address is not assigned to a profile rendered before its device's profile |
| `PolicyAgreement.ServedAsDecided` | internal/coredns/coredns.go:526-569 | A client whose device is not paused is served as the rules of its serving profile decide |
| `PolicyAgreement.ExplainerMayDisagree` | internal/coredns/coredns.go:1278-1376 | A database with such a conflict for which the explainer says blocked and the rendered configuration does not block |
| `PolicyAgreement.RecordLooksLikeBlock` | internal/coredns/coredns.go:1278-1376 | A record that points a name at the block address: the explainer says that nothing blocks it and the rendered configuration answers like a block |
| `PolicyAgreement.BlockLineOf` | internal/coredns/coredns.go:526-569 | A profile's hosts file answers a domain with the block address exactly when the explainer's rules block it or a local record itself points there |
| `PolicyAgreement.ExplainerAgreesWithCompiler` | internal/coredns/coredns.go:1278-1376 | For every database in normal form, every client without that conflict and every valid domain: the rendered configuration blocks exactly what the explainer says, up to local records at the block address |
| `HouseholdRules.PauseIs` | internal/protectiontime/protectiontime.go:79-86 | The explainer reports a pause and the configuration refuses the device exactly while now is before the end of one of its pauses |
| `HouseholdRules.InForceIs` | internal/protectiontime/protectiontime.go:49-86 | A profile is in force exactly when its pause has ended and its plan is off or the local clock is in one of its windows |
| `HouseholdRules.PlanHoldsIs` | internal/protectiontime/protectiontime.go:49-77 | A plan holds exactly when it is off, or the minutes since the start of the window of a chosen day, modulo a week, are fewer than its length |
| `HouseholdRules.ExceptedIs` | internal/coredns/coredns.go:526-569 | Exceptions of compiler and explainer are the allow list and the trials that end later than now |
| `HouseholdRules.ListedIs` | internal/coredns/coredns.go:526-569 | Blocks of both are the block list and the enabled lists the profile uses |
| `HouseholdRules.DecisionIs` | internal/coredns/coredns.go:1278-1376 | The explainer's answer and reason for a profile, in order, by the rows |
| `HouseholdRules.HostsFileIs` | internal/coredns/coredns.go:476-569 | A hosts file holds every local record, the blocked names at the block address, and nothing else |
| `HouseholdRules.BlockLinesAre` | internal/coredns/coredns.go:526-569 | Names are normalized before the allowed ones are taken from the blocked ones, whatever is stored |
| `HouseholdRules.SelectedIs` | internal/coredns/coredns.go:1278-1376 | The explainer uses the profile of the client's device, else of its address, else the default |
| `HouseholdRules.ConflictIs` | internal/coredns/coredns.go:571-617 | A conflict by the rows: member of one profile, assigned to another that is rendered before it, by id with the default last |
| `HouseholdRules.ExplainedIs` | internal/coredns/coredns.go:1278-1376 | The explainer says blocked exactly when the device is paused or the rules of its profile block the name |
| `HouseholdRules.ServedIs` | internal/coredns/coredns.go:343-644 | The rendered configuration blocks exactly then, or when a local record is at the block address |
| `TemporalSignature.CurrentTemporalSignature` | internal/coredns/coredns.go:656-726 | The three query loops build the delimited text of all tokens |
| `TemporalSignature.DelimitedIsInjective` | internal/coredns/coredns.go:656-726 | The delimited encoding is injective on its tokens |
| `TemporalSignature.SignatureTells` | internal/coredns/coredns.go:656-726 | For one database, two instants have the same signature exactly when the same profiles are active, devices paused and exceptions live |
| `TemporalSignature.EqualSignatureEqualRender` | internal/coredns/coredns.go:178-199 | Equal signatures mean the same rendered blocks and hosts files, so a skipped render changes nothing |
| `Schedule.ActiveIsUnionOfWindows` | internal/protectiontime/protectiontime.go:49-77 | A schedule is active exactly in the union of the windows that start on its days, across midnight and from Sunday to Monday |
| `Schedule.WeeklyTotal` | internal/protectiontime/protectiontime.go:49-77 | Active minutes per week are the number of chosen days times the window's length |
| `Schedule.NormalizeDays` | internal/protectiontime/protectiontime.go:88-103 | Keeps exactly the named days 1 to 7, each once, in order |
| `Schedule.CanonicalIsIdempotent` | internal/protectiontime/protectiontime.go:88-103 | Normalizing again changes nothing |
| `Schedule.CanonicalInOrder` | internal/protectiontime/protectiontime.go:88-103 | Single digits, each once and in ascending order |
| `Schedule.NormalizingKeepsScheduleExactlyWhen` | internal/protectiontime/protectiontime.go:88-121 | Normalizing leaves the schedule active at the same minutes exactly when no day is written in another form that parses, such as 01 |
| `Schedule.LeadingZeroTurnsOn` | internal/protectiontime/protectiontime.go:88-121 | Monday written 01 is never active as stored, and after normalizing exactly in the Monday window |
| `Migrations.LedgerMaximum` | internal/db/migrations.go:482-511 | Accepts exactly the ledgers 1..n without a gap |
| `Migrations.LedgerVersion` | internal/db/migrations.go:482-522 | The version ledger and user_version stand for, or an error exactly when they contradict each other |
| `Migrations.VersionIs` | internal/db/migrations.go:482-522 | A ledger of 1 to m gives the larger of m and user_version, or an error exactly when user_version is set and less |
| `Migrations.OtherVersions` | internal/db/migrations.go:331-357 | No ledger gives 0, a gap or a version that is not positive an error, and a user_version above 14 is too new |
| `Migrations.LedgerCompleteExactlyWhen` | internal/db/migrations.go:331-431 | A successful upgrade leaves the ledger {1..14} exactly when there was no ledger, or user_version was 0 or recorded |
| `Migrations.GapAfterInterruptedFirstUpgrade` | internal/db/migrations.go:331-431 | A database from before the ledger with a user_version, cut off right after the ledger was created, ends up with a gap and is refused from then on |
| `Migrations.RestoreIsCrashSafe` | internal/db/migrations.go:697-722 | A restore can be cut anywhere without losing the original exactly when the status file already asks for that recovery |
| `Migrations.SafeDiskRecovers` | internal/db/migrations.go:744-773 | Every safe disk gives the original or the upgraded database back on the next open |
| `Migrations.ExposedDiskIsLost` | internal/db/migrations.go:744-773 | A disk whose database is gone while no recovery is asked for is not repaired by the next open |
| `Migrations.Store.Restore` | internal/db/migrations.go:697-722 | Goes exactly through the listed states as far as it gets, changes only the database file, and succeeds exactly when the backup exists and every step does |
| `Migrations.RestoreStepsAre` | internal/db/migrations.go:697-722 | The states of a restore: no database, half of one, the backup, as far as it gets |
| `Migrations.WriteStepsAre` | internal/db/migrations.go:249-290 | The states of a status write; where renaming is refused there is a moment without a status file |
| `Migrations.UpgradeOutcomeIs` | internal/db/migrations.go:364-431 | An upgrade opens the database exactly when every one of its operations succeeds, call by call |
| `Migrations.Store.Recover` | internal/db/migrations.go:744-773 | Exactly when an interrupted upgrade is undone, and every state on the way; if the restore succeeds all of them were safe |
| `Migrations.Store.Rollback` | internal/db/migrations.go:641-670 | If the restore succeeds the database is the backup; the states on the way are listed, all safe if the upgrade was marked in progress, and one beyond recovery if not |
| `Migrations.Store.MigrateOne` | internal/db/migrations.go:405-420 | Succeeds exactly when noting, running and recording do, and then applies and records exactly that migration; its states are listed, and unless the status file is removed meanwhile every one is safe |
| `Migrations.Store.RunOne` | internal/db/migrations.go:409-420 | The disk goes through what the statements leave in between, all of them, and the record, as far as each succeeds, and the status file keeps every one of these states recoverable |
| `Migrations.Store.MigrateAll` | internal/db/migrations.go:401-421 | Every missing migration once, in order, exactly when each of them goes through; the states are those of each migration in turn up to the first that fails |
| `Migrations.Store.Upgrade` | internal/db/migrations.go:364-431 | How it ends is exactly what its operations do, and so is every state it passes; it ends with exactly the finished database or with the database it started from; with atomic status writes a state beyond recovery occurs exactly when it rolls back unguarded |
| `Migrations.Store.BeginUpgrade` | internal/db/migrations.go:386-400 | The same from the moment the upgrade is marked in progress |
| `Migrations.Store.EndUpgrade` | internal/db/migrations.go:423-431 | The same from the moment it is to be marked complete |
| `Migrations.Store.Migrate` | internal/db/migrations.go:331-431 | The outcome and every state on the way are exact; success leaves every missing migration applied once in order, ledger {1..14} and user_version 14, and comes if nothing that is done fails; newer, inconsistent or unreadable databases are refused with the database unchanged |
| `Migrations.Store.VersionFor` | internal/db/migrations.go:331-357 | The version a database stands for, or an error exactly when its ledger contradicts itself |
| `Migrations.Store.Open` | internal/db/db.go:27-44 | The same after recovering whatever an earlier process left: outcome and states are exact; where there is no database yet, success is the complete schema on a new one; for a database that is behind, every state on the way is safe exactly when no rollback is unguarded |
| `Migrations.Boot` | internal/db/migrations.go:331-431 | One open leaves the disk it ended with, or, if killed after any number of changes, exactly the state after that many of the states of Open; that disk is safe if restores succeed and it was not killed while rolling back unguarded, and the open is done exactly when it succeeds and lives on |
| `Migrations.Boots` | internal/db/migrations.go:331-431 | Over any number of opens, each failing anywhere or killed between any two disk changes, each disk is exactly what such an open leaves of the one before: as long as needed restores succeed and none is killed while rolling back unguarded, the original is never lost, the first success is the complete upgrade, and an open in which nothing fails succeeds |
| `Migrations.UnguardedRollbackCanBeLost` | internal/db/migrations.go:641-670 | Whenever an upgrade is rolled back unguarded there is a number of changes after which a kill leaves a disk that is beyond recovery |
| `Replication.StepKeeps` | internal/redundancy/protocol.go:24-376 | Every step of the protocol, with messages lost, delayed or repeated, keeps the invariant |
| `Replication.ReplicationIsSafe` | internal/redundancy/protocol.go:217-376 | Over every run: a replica's revision is one it installed under its pairing and never exceeds its controller's, its files are a stored snapshot of its home, the controller records for a node only 0 or a revision the node installed under a secret of this controller, and no two controllers share a home |
| `Replication.FilesAreOfRevisionExactlyWhen` | internal/redundancy/protocol.go:362-376 | Over every run, a replica's files are the snapshot of its recorded revision exactly when its last synchronization recorded it |
| `Replication.RecordedRunsInstallTheRevision` | internal/redundancy/protocol.go:362-376 | Over every run in which recording never fails, a replica past revision 0 has installed exactly the stored snapshot of its home and revision |
| `Replication.BehindCatchesUp` | internal/redundancy/protocol.go:217-376 | From every state of every run with captures committed in their home: however far a replica is behind, one answer that is installed and recorded brings it to the controller's revision and files, and the acknowledgement tells the controller |
| `Replication.CatchesUp` | internal/redundancy/protocol.go:217-376 | The three steps of that, enabled one after the other, and what they leave |
| `Replication.RunKeepsBound` | internal/redundancy/manager.go:495-511 | Over every run the secret of a membership was issued by the controller of its home |
| `Replication.UnrecordedSyncIsAhead` | internal/redundancy/protocol.go:362-376 | A synchronization that cannot record its revision leaves newer files behind than the replica says |
| `Replication.RevisionGrowsOverRuns` | internal/redundancy/protocol.go:327-376 | Within a membership a replica's revision only grows |
| `Replication.NamesAreKeptExactlyWhen` | internal/redundancy/manager.go:304-336 | A step keeps one snapshot per home and revision, and every controller at exactly its own, exactly when a capture is committed in the home it was read in |
| `Replication.NamesStayApart` | internal/redundancy/manager.go:242-336 | Over every run of such steps a home and revision name one snapshot and a controller stores exactly that of its revision |
| `Replication.StaleCaptureIsCommitted` | internal/redundancy/manager.go:304-336 | Leaving and starting over lets an older capture through the compare-and-swap: the controller of the new home then stores a snapshot of the old one |
| `Installation.Manager.CommitCapture` | internal/redundancy/manager.go:304-336 | Exactly when the server is a controller at the revision read and has no such snapshot yet: the next revision, and exactly its snapshot kept |
| `Installation.Manager.InitializeController` | internal/redundancy/manager.go:242-281 | A standalone server becomes controller of the home at revision 1 with that snapshot |
| `Installation.Manager.AcceptPair` | internal/redundancy/protocol.go:24-90 | A controller stores the new secret with revision 0 and replies with its home |
| `Installation.Manager.PersistReplicaState` | internal/redundancy/manager.go:495-511 | The server becomes a replica of the home with the secret, at revision 0 |
| `Installation.Manager.RecordAcknowledgement` | internal/redundancy/protocol.go:234-247 | A known peer's revision is recorded unless it failed |
| `Installation.Manager.RemoveNode` | internal/redundancy/manager.go:513-536 | A controller forgets a peer it has |
| `Installation.Manager.SnapshotEnvelope` | internal/redundancy/protocol.go:217-232 | An envelope exactly when the replica is behind and the snapshot is stored, and then that snapshot |
| `Installation.Manager.SyncReplica` | internal/redundancy/protocol.go:249-376 | A snapshot sealed with its secret, of its home and with any larger revision is installed, recorded and acknowledged as far as each succeeds; one that cannot be installed is acknowledged as failed; everything else changes nothing |
| `Installation.Manager.Leave` | internal/redundancy/manager.go:538-609 | Standalone with no rows left, or for a replica that cannot render its own files the membership it had |
| `Network.Household.Act` | internal/redundancy/manager.go:242-609 | Every transaction of every server changes the state of the protocol by exactly its step |
| `Network.Household.Serve` | internal/redundancy/protocol.go:217-232 | A request is answered with the snapshot of the controller's revision exactly when there is something newer |
| `Network.Household.Sync` | internal/redundancy/protocol.go:249-376 | A reply with a newer snapshot of the replica's home under its secret is installed or refused, any other is ignored, exactly as the protocol's steps say |
| `Network.CatchUp` | internal/redundancy/protocol.go:217-376 | Serving, synchronizing and recording by the code bring a replica, however many revisions behind, to the controller's revision and files |
| `Network.Household.Leave` | internal/redundancy/manager.go:538-609 | Leaving, staying after a failed render, and having nothing to leave are exactly the protocol's steps |
| `Network.FollowRun` | internal/redundancy/manager.go:242-609 | The code goes through every run of the protocol state by state, so what is proved over runs is proved of it |
| `Gatekeeper.Controller.CreateCode` | internal/redundancy/manager.go:220-240 | A new code lives for ten minutes |
| `Gatekeeper.Controller.CheckCode` | internal/redundancy/protocol.go:115-139 | Passes exactly a code that exists, has not expired and is proven known; it was never redeemed before |
| `Gatekeeper.Controller.Redeem` | internal/redundancy/protocol.go:54-90 | However much later it finishes and whatever happened since: the code is redeemed once and for all exactly when the node is stored and the reply is ready |
| `Gatekeeper.Controller.Begin` | internal/redundancy/protocol.go:160-198 | Passes exactly a request signed with the node's present secret and stamped within two minutes |
| `Gatekeeper.Controller.Finish` | internal/redundancy/protocol.go:199-208 | Accepts exactly an unremembered nonce; no request is ever accepted twice as long as accepted ones reach this check within 60 seconds and in the same home |
| `Gatekeeper.Controller.Expire` | internal/redundancy/manager.go:637-656 | Drops exactly expired codes and nonces older than five minutes, and nothing a copy could still need |
| `Gatekeeper.Prune` | internal/redundancy/manager.go:646-655 | Exactly the nodes that have young nonces, with exactly those |
| `Gatekeeper.KeepYoung` | internal/redundancy/manager.go:646-651 | Exactly the nonces of the last five minutes |
| `Gatekeeper.Controller.Leave` | internal/redundancy/manager.go:565-568 | Forgets codes, nonces and nodes without making an old request acceptable |
| `Gatekeeper.ReplayAfterStall` | internal/redundancy/protocol.go:160-208 | For every wait longer than 60 seconds between the two checks there is a controller that has accepted the same request twice |
| `Gatekeeper.ReplayAcrossLeave` | internal/redundancy/protocol.go:160-208 | A controller that left its home while a copy was between its two checks has accepted the same request twice, at the same time |
| `Devices.MergeFollows` | internal/devices/identity.go:283-375 | A permitted merge moves addresses, identifiers and query rows of the source to the target, keeps every protection and deletes only the source |
| `Devices.MergeIs` | internal/devices/identity.go:334-375 | A merge, field by field and row by row: what the target says is kept, blanks are filled from the source, confirmation is never lost, and nothing else changes |
| `Devices.CanMergeIs` | internal/devices/identity.go:315-324 | Two confirmed devices are merged only if the target has no name or the same, and two protected ones only with the same protection |
| `Devices.ConfirmedNameIsKeptExactlyWhen` | internal/devices/identity.go:334-348 | The name of a confirmed source survives exactly when the target has none, or the same |
| `Devices.ConfirmedNameMayBeLost` | internal/devices/identity.go:251-348 | A device its owner named is merged into one that is only named from elsewhere, and its name is gone |
| `Devices.MergeKeepsValid` | internal/devices/identity.go:334-375 | After a merge every address and identifier still belongs to one existing device and no row lost its device |
| `Devices.PlacedFollows` | internal/devices/identity.go:90-120 | Whatever the identifiers matched, the observed address ends on one existing device, which is the one it had if it had one, and nothing else moves |
| `Devices.ObservationFollows` | internal/devices/identity.go:41-131 | An observation only merges and adds; the address ends on the device returned; conflicting identifiers merge and move nothing |
| `Devices.MergesExactlyWhen` | internal/devices/identity.go:251-324 | A known address moves to the owner of its identifiers exactly when the two devices may be merged; otherwise no device changes |
| `Devices.EvidenceGathers` | internal/devices/identity.go:41-131 | Unless the identifiers conflict or the devices may not be merged, the address and every identifier seen with it end on one device: the owner of one of them, or a new one |
| `Devices.RunIsValid` | internal/devices/identity.go:41-131 | Throughout every run each address and each identifier belongs to one existing device |
| `Devices.RunOnlyCoarsens` | internal/devices/identity.go:41-375 | Over every run: addresses and identifiers that shared a device still do, an address keeps its protection and its confirmation, a device that is still there keeps what its fields say, and no row is lost, changed or moved |
| `Devices.RunDanglesExactlyWhen` | internal/querylog/querylog.go:366-401 | Over every run no row is without its device exactly when every row was stored while its device existed |
| `Devices.ResolvedDeviceMayVanish` | internal/querylog/querylog.go:366-401 | Two addresses resolved in one batch, the second with evidence for another device: the first answer names a deleted device |
| `DeviceRegistry.Registry.SafeMerge` | internal/devices/identity.go:283-332 | Merges exactly when the devices do not conflict, and then to exactly the specified tables |
| `DeviceRegistry.Registry.DeviceForIdentifiers` | internal/devices/identity.go:231-249 | A conflict exactly when two identifiers have different owners, else their owner, if any |
| `DeviceRegistry.Registry.ObserveIdentifier` | internal/devices/identity.go:251-281 | Joins, merges into the owner, or leaves the conflict alone |
| `DeviceRegistry.Registry.ObserveIdentifiers` | internal/devices/identity.go:122-131 | The same for each in turn, threading the device that results |
| `DeviceRegistry.Registry.ObserveAddress` | internal/devices/identity.go:41-88 | An invalid address changes nothing; otherwise the specified observation |
| `DeviceRegistry.Registry.InsertBatch` | internal/querylog/querylog.go:354-418 | The tables afterwards are exactly those of observing each new client in turn, with one row per entry in order appended, or none; no row is without its device exactly when resolving a later client of the batch merges no device away that answered for an earlier one, a condition on the entries and the tables before |
| `Gateway.Proxy.MatchingClient` | internal/dohproxy/clients.go:14-26 | A client of that endpoint from the first state that has one, or none exactly when no state has one |
| `Gateway.Proxy.CloseUnused` | internal/dohproxy/clients.go:28-46 | Closes exactly the retired clients that no kept state uses |
| `Gateway.Proxy.ReplaceState` | internal/dohproxy/clients.go:7-12 | Keeps one generation back and closes exactly what neither needs |
| `Gateway.Proxy.BuildClients` | internal/dohproxy/proxy.go:77-91 | One client per endpoint, reused where the current or previous state has it; new ones are new |
| `Gateway.Proxy.ReloadConfig` | internal/dohproxy/proxy.go:62-94 | Every client ever created is closed or held by one of two generations, never both; failure changes neither; reloading the served endpoints keeps the very clients |
| `Gateway.Proxy.RestorePrevious` | internal/dohproxy/proxy.go:99-105 | The generation before the last reload serves again and what only the failed one used is closed |
| `Gateway.ReloadAndTakeBack` | internal/dohproxy/proxy.go:62-105 | A reload that serves the new endpoints and is taken back gives the earlier clients back, all still open, and closes every other client ever created |
| `Gateway.Proxy.Exchange` | internal/dohproxy/proxy.go:276-305 | The providers are asked at positions start, start + 1 and so on modulo their number, none twice, up to the first answer of at least four bytes whose code is not SERVFAIL, which is the response; every share is an equal part of what the attempts before really left and at least that of the whole, the times taken stay together within the deadline, and without a response, if there is time for all, every provider was asked and failed |
| `Gateway.ExchangeFrom` | internal/dohproxy/proxy.go:276-305 | The same from a given first provider |
| `Gateway.UsableIs` | internal/dohproxy/proxy.go:296-301 | A usable answer has four bytes and a response code that is not 2 |
| `Gateway.TurnsDiffer` | internal/dohproxy/proxy.go:287-287 | Different offsets lead to different providers |
| `Gateway.FairRotation` | internal/dohproxy/proxy.go:281-281 | Over any k·n consecutive queries each of n providers goes first exactly k times |
| `Gateway.Rounds` | internal/dohproxy/proxy.go:276-305 | k rounds of queries on one state of n providers move the rotation on by k·n and start at each of them exactly k times |
| `Gateway.AllTriedStayWithinExactlyWhen` | internal/dohproxy/proxy.go:276-305 | When every provider is tried, the shares stay within the deadline exactly when no provider before the last failed early |
| `Gateway.EarlyAnswerStaysWithin` | internal/dohproxy/proxy.go:276-305 | When a provider in the first half answers they stay within it however early the others failed |
| `Gateway.SharesMayExceedDeadline` | internal/dohproxy/proxy.go:288-293 | The shares offered can add up to more than the deadline when an attempt fails early |
| `BackupStream.Encrypt` | internal/backup/service.go:674-718 | The loop writes the header and the chunks of the specification, for every length |
| `BackupStream.HeaderIs` | internal/backup/service.go:683-688 | The stream starts with FAROBKP1, the version, the salt and the nonce prefix |
| `BackupStream.ChunkIs` | internal/backup/service.go:695-717 | Chunk k is the k-th 1 MiB behind its mark, sealed under prefix and number, with the nine header bytes and the number as additional data |
| `BackupStream.FramesAre` | internal/backup/service.go:707-717 | Each chunk follows its length |
| `BackupStream.BigEndianIs` | internal/backup/service.go:785-797 | Numbers are four bytes, the most significant first |
| `BackupStream.Decrypt` | internal/backup/service.go:733-774 | The loop accepts exactly the streams the specification accepts, with the same contents |
| `BackupStream.CutData` | internal/backup/service.go:695-716 | Cutting into chunks and joining their contents gives the input back, for empty input and exact multiples too |
| `BackupStream.NonceIsInjective` | internal/backup/service.go:785-790 | Prefix and counter can be read off the nonce |
| `BackupStream.RoundTrip` | internal/backup/service.go:674-774 | Decrypting an encrypted backup gives it back, for every length |
| `BackupStream.Integrity` | internal/backup/service.go:733-774 | However many backups were made under a passphrase, with an ideal cipher and fewer than 2^32 chunks each: a stream is accepted exactly when it is one of them, whole, and then gives exactly its contents; nothing can be truncated, reordered, repeated, added or moved between backups |
| `BackupStream.ChunkTells` | internal/backup/service.go:785-790 | Salt and nonce tell which backup a chunk belongs to |
| `LogWriter.RotatingWriter.Close` | cmd/faro-logtee/main.go:158-165 | Closes without touching the directory |
| `LogWriter.RotatingWriter.Append` | cmd/faro-logtee/main.go:127-134 | Appends exactly the part of the data that was taken, and the size follows |
| `ExactlyOnce.PollKeeps` | internal/querylog/querylog.go:109-162 | A poll moves the checkpoint only forward and keeps the rows exact; a complete one covers the whole stream |
| `Corefile.ValidateEach` | internal/coredns/coredns.go:857-869 | Every name is managed and the total within the limit, whatever the order of the walk |
| `Corefile.ReadNamed` | internal/redundancy/manager.go:364-375 | The named files with their contents, or nothing exactly when one is missing or the total is too large |
| `RenderedFiles.Choose` | internal/coredns/diagnostics.go:77-84 | The named files with their contents, or an error exactly when one is missing |
| `Apply.FileNames` | internal/coredns/coredns.go:1196-1203 | Every name once, the Corefile first |
| `Apply.Manager.Stage` | internal/coredns/coredns.go:276-286 | The stale files, everything that will be touched, and a snapshot of it |
| `Apply.Manager.Unprepare` | internal/coredns/coredns.go:223-248 | The earlier generation serves again, the settings go back if they can, and the gateway is reloaded from what is stored then |
| `Migrations.Maximum` | internal/db/migrations.go:489-505 | The largest recorded version, or an error exactly when one is not positive |
| `Migrations.Store.WriteStatus` | internal/db/migrations.go:249-290 | The status file is replaced in one step, kept, or removed first and then replaced or lost, with exactly those states on the way |
| `Migrations.Store.SetUpgradeState` | internal/db/migrations.go:292-329 | Succeeds exactly when the file and its copy in the database are written |
| `Migrations.Store.Refuse` | internal/db/migrations.go:672-695 | Nothing but the status file changes |
| `Migrations.Store.RunUpgrade` | internal/db/migrations.go:401-431 | Ends with exactly the finished database, or with the backup in place if the restore succeeds |
| `Gatekeeper.Controller.StoreNode` | internal/redundancy/protocol.go:141-152 | The node's secret is replaced by a new one |
| `Gatekeeper.Controller.Consume` | internal/redundancy/protocol.go:154-158 | The code is gone |
| `Gatekeeper.Controller.RemoveNode` | internal/redundancy/manager.go:513-533 | The node's secret is gone; remembered nonces stay |
| `Gatekeeper.Controller.NotYetAccepted` | internal/redundancy/protocol.go:199-208 | Tolerance and retention compose: a request checked in time whose nonce is not remembered was never accepted before |
| `Devices.SeenAllFollows` | internal/devices/identity.go:122-131 | Any number of identifiers, one after the other, only merges and adds |
| `DeviceRegistry.Registry.Resolve` | internal/querylog/querylog.go:366-380 | Each client is observed once per batch, the tables going from one observation to the next; a remembered answer is its device as long as that device exists; a failure keeps what was resolved |
| `DeviceRegistry.Registry.InsertRows` | internal/querylog/querylog.go:391-401 | One row per entry in order behind the rows there were |
| `Gateway.TryInTurn` | internal/dohproxy/proxy.go:276-305 | The attempt loop: the offers, the provider at (start + offset) modulo the number of providers for each, the time each attempt took, and the first usable answer |
| `Gateway.TryOne` | internal/dohproxy/proxy.go:286-297 | One offer: the provider at that position with an equal part of what is left, its answer and the time it took, and enough left for the others |
| `Gateway.OneRound` | internal/dohproxy/proxy.go:281-281 | Any n consecutive queries start at each of n providers once |
| `BackupStream.WriteChunks` | internal/backup/service.go:695-717 | The chunk loop writes exactly the specified chunks, ended by the first that is not full |
| `BackupStream.ReadChunks` | internal/backup/service.go:747-773 | The chunk loop accepts and returns exactly what the specification does |
| `BackupStream.BigEndianRoundTrip` | internal/backup/service.go:707-709 | Lengths and counters survive their four-byte form |
| `BackupStream.NonceRepeats` | internal/backup/service.go:785-790 | From 2^32 chunks on nonces repeat, so the bound in Integrity is needed |
| `BackupStream.IdealCiphersExist` | internal/backup/service.go:776-783 | The assumptions of Integrity about the cipher can be met, whatever backups are made |

## Left out

- HTTP handlers, the web interface, process wiring, UDP and TCP serving, dialers, health probes, blocklist downloads and release checks: input and output without a protocol of their own.
- Cryptographic primitives, key derivation, compression and JSON: arbitrary functions with the round trip they promise.
- The CoreDNS process, its metrics and the hash of a Corefile: an arbitrary accept or reject and an arbitrary function.
- SQL text, indexes, foreign keys other than those named in `WellFormed`, and the contents of individual migrations.
- The time-zone database, RFC 3339 and HH:MM parsing, domain, address and record normalization, and the regular expression of a log line: parameters.
- The order of lines inside a hosts file and of client addresses inside a view: a hosts file is a set of lines.
- The order of file names other than the Corefile when files are written or restored: any order.
- Symbolic links and other special entries in the configuration directory, which the source skips when it looks for stale files.
- In-memory databases, which have no status file and are migrated without recovery.
- The cursor file used before the first stored checkpoint, and the tailer's idle timing.
- Device names per source, UniFi snapshots, first and last seen times, and device pauses when devices merge.
- The rows that a fresh installation is seeded with after an upgrade, and whatever is written to the database later.
- Changes to settings or tables by another request between the steps of one apply.
- A home that an old release left as controller at revision 0 and that the next pairing repairs.
- Gateway shutdown, requests without a deadline, and a query counter beyond 2^63.
- Retention, device catalog scoring, login throttling, diagnostics and backup restore across tables: easier members.
- Replication.ReplicationIsSafe: a pairing, an authenticated request and a synchronization are single steps; overlap with a concurrent join on the same server is not covered.
- Apply.FileNames: puts the Corefile first, as sorting does for every name the renderer or a controller can produce.
