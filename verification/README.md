# Project Dia: a verified model of pass scheduling and execution

Project Dia books satellite passes on a Go Server and executes them on a Python
Worker that may be offline for long stretches. This project models the two
sides, the protocol between them and the Worker's hardware, and proves what
holds over every run of them. `dafny verify dfyconfig.toml` checks everything.

| file | what it models |
|---|---|
| `PassTable.dfy`, `Scheduling.dfy`, `SchedulingService.dfy` | the passes table with its constraints and guarded writes; runs of requests, overrides, decisions, cancellations and reports; the service as it executes them |
| `ConfigVersions.dfy` | the versioned scheduling configuration |
| `WorkerState.dfy`, `PlanStore.dfy` | the Worker's durable tables, as values and as the object whose methods update them |
| `WorkerCore.dfy` | the Worker process: every store statement is one step, with resyncs and crashes between any two of them |
| `Protocol.dfy`, `Exchange.dfy` | Server and Worker over a network that delays, loses, repeats and reorders; the calls as they run on each side |
| `Executor.dfy`, `Timetable.dfy` | the execution loop with its clock, and why the protocol always hands it a timetable it can keep |
| `SecondExecution.dfy` | a run of the protocol in which one pass is executed twice |
| `FilePaths.dfy`, `Transfer.dfy`, `Retention.dfy` | where recordings are stored, how they are moved, which are deleted |
| `Rotator.dfy`, `StationSafety.dfy`, `PassExecution.dfy` | the rotator and its command stream, the capture slot, and the handler of one pass |
| `Jsonc.dfy`, `Tle.dfy`, `Prediction.dfy`, `Text.dfy` | comment stripping, two-line elements, pass prediction, splitting text |
| `Basics.dfy` | shared datatypes and counting facts |

## How the model is built

A run is a sequence of steps; a step that cannot happen in a state changes
nothing, so a theorem about every sequence is a theorem about every
interleaving. Tables are maps, a transaction is one step, a guarded
`UPDATE ... WHERE status IN (...)` is one step, and a statement that the Worker
commits on its own is one step. What hardware, the disk, the clock, the network
and other processes do is left open: it is a parameter or an arbitrary choice
(`*`). Time is in integer microseconds; angles, event times and disk usage are
reals. SHA-256 is an arbitrary function: where freedom from collisions matters
it is asked for exactly the inputs in play.

The code decides where it and its documentation differ:

- `executor.py` promises that an interrupted pass is never resumed. A resync
  with a new generation for an executing row puts the row back to "received";
  if the process is then lost before that pass is finished, the handler runs a
  second time (`WorkerCore.HandlerCanRunTwice`, and as a run of the whole
  protocol `SecondExecution.HandlerRunsTwice`). `WorkerCore.AtMostOnce` shows
  that both events are necessary, and `WorkerCore.SecondExecutionExactlyWhenPending`
  that from then on the row being pending is exactly the condition. A second
  generation of an approved pass arises when two approvals both read the pass as
  pending: each generates and stores its plan before its guarded write
  (`server/go/internal/scheduling/service.go:311-329`), and the plan of the one
  whose write then fails stays stored.
- Finishing a pass is two statements. If the process is lost between them, or the
  second one fails, the outcome is never recorded and never reported
  (`WorkerCore.UnrecordedExactlyWhenLost`, with a run in `WorkerCore.RecordCanBeLost`).
- The transition table leads from approved to completed only through executing;
  the report of an outcome makes that move in one write, and nothing writes
  executing (`Scheduling.LifecycleRefinement`).
- A new lead time of exactly zero takes effect at once although it relaxes the
  current one (`ConfigVersions.LoweredAtOnceExactlyByZero`).
- The TLE parser indexes the epoch field without checking its length, so it
  panics on a trimmed field of fewer than two characters
  (`Tle.ParserCanPanic`); `Tle.PanicsExactlyOnShortEpoch` gives exactly the texts.
- The rotator counts a position as commanded when the serial port reports
  success. A port that fails part-way or after the last byte breaks the round
  trip; `Rotator.DecodesWhatWasCommanded` gives exactly when it holds.

## Model

| member | source | states |
|---|---|---|
| `PassTable.LiveExactlyWhenNotTerminal` | server/go/internal/scheduling/statemachine.go:10-56 | the statuses that hold the station are exactly those with a successor in the transition table |
| `PassTable.AllowedBySource` | server/go/internal/scheduling/statemachine.go:10-30 | each status is entered only from its own sources: decisions from pending, execution and missing from approved, results from executing, cancellation from pending or approved |
| `Scheduling.StepEvolves` | server/go/internal/store/passes.go:94-134 | no write of the service removes a pass, moves its reservation, revives one that no longer holds its station, or changes a status other than along a chain of allowed transitions |
| `Scheduling.StepAdds` | server/go/internal/store/repository.go:330-367 | the only pass a step can add is the requested one, it satisfies the row checks and overlaps no live pass of its station |
| `Scheduling.StepKeepsInvariant` | server/go/internal/store/migrations/00001_initial_schema.sql:223-232 | every operation keeps exclusivity, the row checks, and that no pass is executing |
| `Scheduling.StationExclusivity` | server/go/internal/store/repository.go:330-367 | in every reachable state, of two live passes of one station one is over before the other begins; every reservation covers its pass, none is executing, and exactly the cancelled ones carry a cancellation |
| `Scheduling.LeadsFromLive` | server/go/internal/scheduling/statemachine.go:10-36 | no chain of transitions starts at a terminal status or ends at pending approval, and none leads from approved back to approved |
| `Scheduling.LifecycleRefinement` | server/go/internal/scheduling/statemachine.go:10-65 | over every run the statuses a pass goes through are at most three, each leads to the next in the transition table's closure, none is executing, and three of them mean pending, approved, terminal |
| `Scheduling.OverrideAllOrNothing` | server/go/internal/scheduling/service.go:221-281 | on any legal table, executing passes included, the override changes nothing unless it is accepted, and an executing pass in the way refuses it; accepted, it cancels exactly the live overlapping passes with the override reason, adds one approved pass, writes one audit record for each and one for itself, and leaves the table legal |
| `Scheduling.RefusedExactlyByExecuting` | server/go/internal/store/passes.go:120-134 | a fresh, legal override is refused if and only if a pass in its way is executing |
| `Scheduling.OverrideKeepsLegal` | server/go/internal/store/migrations/00001_initial_schema.sql:223-232 | an accepted override of any legal table leaves exclusivity and the row checks in force |
| `Scheduling.OverrideAudited` | server/go/internal/scheduling/service.go:236-280 | the new audit records are one for each pass in the way, naming its former status, and a last one for the override |
| `SchedulingService.CancelledAllRows` | server/go/internal/scheduling/service.go:229-249 | cancelling a list one by one cancels exactly the listed rows |
| `SchedulingService.OverrideFits` | server/go/internal/scheduling/service.go:251-276 | once the conflicts are cancelled the insertion cannot be refused for overlap, and approving it gives the announced table |
| `SchedulingService.Service.FindConflictingPasses` | server/go/internal/store/passes.go:69-92 | lists exactly the live overlapping passes of the station, each once, by start of reservation |
| `SchedulingService.Service.ConflictFor` | server/go/internal/scheduling/service.go:427-444 | reports the smallest interval that covers every reservation in the way |
| `SchedulingService.FirstFailingCheckAnswers` | server/go/internal/scheduling/service.go:77-128 | the answer to a request is that of the first check it fails, and none is skipped |
| `SchedulingService.ClearExactlyWithoutConflict` | server/go/internal/store/passes.go:69-77 | the overlap query finds nothing exactly when every other live pass of the station ends by the start or begins from the end |
| `SchedulingService.Service.RequestPass` | server/go/internal/scheduling/service.go:76-164 | past the checks, and unless the insert fails, accepted if and only if every live pass of the station is over by the pre-pass buffer before the rise or begins after the post-pass buffer; the stored row has exactly these ends; only an accepted request changes anything, and an occupied answer covers every reservation in the way |
| `SchedulingService.Service.CancelEach` | server/go/internal/scheduling/service.go:229-249 | unless a statement fails, succeeds exactly when every listed pass may be cancelled, and then writes one audit record each, in order |
| `SchedulingService.Service.OverrideTransaction` | server/go/internal/store/repository.go:53-67 | without a failing statement commits exactly when the override is accepted; committed it is the override step of the run model, and uncommitted, for whatever reason, nothing has changed |
| `SchedulingService.Service.RequestPassWithRootOverride` | server/go/internal/scheduling/service.go:166-295 | only root, and only past every check and the lead time; the booked row spans rise and set with their buffers and is clear of every pass left live; a failing statement leaves everything as it was; a plan that cannot be generated after the commit leaves the booking in place |
| `SchedulingService.Service.Decide` | server/go/internal/scheduling/service.go:305-342 | a decision, with who made it and when, is written exactly when the caller may decide, the transition table allows it and an approval's plan was generated |
| `SchedulingService.Service.CancelPass` | server/go/internal/scheduling/service.go:344-366 | a cancellation, with its reason, is written exactly when the caller may cancel and the transition table allows it |
| `ConfigVersions.InForce` | server/go/internal/store/repository.go:190-198 | the version in force is effective and every newer one is not |
| `ConfigVersions.InForceOnlyAdvances` | server/go/internal/store/repository.go:190-198 | neither time nor further saves move the version in force back |
| `ConfigVersions.SupersededNeverReturns` | server/go/internal/store/repository.go:190-198 | a version once superseded in force never returns, whatever is saved later |
| `ConfigVersions.LoweredAtOnceExactlyByZero` | server/go/internal/scheduling/rules.go:47-52 | saving lowers the lead in force at that instant exactly when the new lead is zero and the current one is not; a lead that is not shorter applies at once, any other after itself |
| `ConfigVersions.BookingAfterRelaxing` | server/go/internal/scheduling/rules.go:38-52 | a booking accepted under a relaxed lead L rises at least 2L after the save |
| `ConfigVersions.ConfigTable.LatestEffective` | server/go/internal/store/repository.go:190-198 | the query finds the version in force |
| `ConfigVersions.ConfigTable.PendingConfig` | server/go/internal/store/repository.go:200-214 | the pending query returns exactly the newest saved version while it is not yet effective, and nothing otherwise |
| `ConfigVersions.ConfigTable.UpdateSchedulingConfig` | server/go/internal/scheduling/service.go:368-395 | appends one version, effective by the relaxing rule, and fails only without a version in force |
| `WorkerState.LoopsReconcile` | worker/src/aagasa_worker/planstore.py:205-257 | the two loops, in whatever order they visit rows, reconcile the whole table |
| `WorkerState.ResyncCounts` | worker/src/aagasa_worker/planstore.py:205-266 | added, updated and unchanged together are the distinct incoming ids |
| `WorkerState.ResyncKeepsRows` | worker/src/aagasa_worker/planstore.py:224-255 | a resync removes no row, changes no column of a terminal row, and cancels exactly the unfinished rows absent from the input |
| `WorkerState.ResyncColumns` | worker/src/aagasa_worker/planstore.py:210-252 | column by column what a resync leaves: a new plan as received, a changed one replaced whole and waiting again, an absent one cancelled, all else untouched |
| `WorkerState.IncomingLastWins` | worker/src/aagasa_worker/planstore.py:198 | of several plans for one pass the last counts |
| `WorkerState.SweptOrClaimable` | worker/src/aagasa_worker/planstore.py:293-357 | at one moment the sweep and the due query divide the waiting rows: each is closed as missed, its window over, or untouched and still claimable |
| `WorkerState.ResyncGrowsByAdded` | worker/src/aagasa_worker/planstore.py:205-222 | the table grows by exactly the rows counted as added |
| `WorkerState.ResyncSettles` | worker/src/aagasa_worker/planstore.py:224-255 | after a resync every listed plan would be kept and every other row is terminal |
| `WorkerState.ResyncIdempotent` | worker/src/aagasa_worker/planstore.py:184-266 | applying the same desired state again leaves the same state and counts no addition, update or cancellation |
| `WorkerState.FinishedAllRows` | worker/src/aagasa_worker/planstore.py:338-376 | closing a list of rows changes exactly those rows |
| `WorkerState.FinishedAllHistory` | worker/src/aagasa_worker/planstore.py:324-385 | and appends one record each, in order |
| `PlanStore.PlanStore.ReplaceDesiredState` | worker/src/aagasa_worker/planstore.py:184-266 | the new store is the reconciled one and the summary counts what changed |
| `PlanStore.PlanStore.NextDue` | worker/src/aagasa_worker/planstore.py:293-303 | the pending plan with an open window that rises first, or none when every pending window has closed |
| `PlanStore.PlanStore.MarkExecuting` | worker/src/aagasa_worker/planstore.py:305-322 | claims exactly a pending plan, and records exactly a claim |
| `PlanStore.PlanStore.MarkFinished` | worker/src/aagasa_worker/planstore.py:324-336 | refuses a state that is not terminal; otherwise writes the row unconditionally and one record |
| `PlanStore.PlanStore.MarkMissedBefore` | worker/src/aagasa_worker/planstore.py:338-357 | a received or ready row is missed afterwards if and only if its set is not after the cutoff; every other row is unchanged |
| `PlanStore.PlanStore.RecoverInterrupted` | worker/src/aagasa_worker/planstore.py:359-377 | exactly the executing rows are failed, every other is unchanged |
| `PlanStore.PlanStore.UnsyncedHistory` | worker/src/aagasa_worker/planstore.py:387-400 | the oldest unreported records up to the limit, in order |
| `PlanStore.PlanStore.MarkHistorySynced` | worker/src/aagasa_worker/planstore.py:402-410 | marks exactly the given records |
| `WorkerCore.StepKeepsCore` | worker/src/aagasa_worker/planstore.py:305-376 | every statement, resync and crash keeps that terminal records are outcomes, unique per pass and true of their row, and that the executor's rows are still open |
| `WorkerCore.AtMostOneOutcome` | worker/src/aagasa_worker/executor.py:80-128 | over every run at most one terminal record is ever written per pass, and the row is in exactly that state |
| `WorkerCore.StepKeepsFinished` | worker/src/aagasa_worker/planstore.py:224-250 | terminal states are absorbing under every step |
| `WorkerCore.RecordedIsFinal` | worker/src/aagasa_worker/planstore.py:224-240 | a pass whose outcome is recorded keeps the record and every column, whatever follows |
| `WorkerCore.PendingAgainExactlyByRearming` | worker/src/aagasa_worker/planstore.py:228-240 | exactly one branch, a new generation for an executing row, makes a row pending that was not |
| `WorkerCore.AtMostOnce` | worker/src/aagasa_worker/executor.py:109-128 | the handler runs twice for a pass only in a run that both rearmed its executing row and lost the executor while it held the pass |
| `WorkerCore.NotPendingNotAgain` | worker/src/aagasa_worker/planstore.py:305-322 | a pass that is not in the queue is not begun again without rearming |
| `WorkerCore.SecondExecutionExactlyWhenPending` | worker/src/aagasa_worker/executor.py:80-128 | some continuation without rearming begins the pass once more if and only if its row is pending |
| `WorkerCore.HandlerCanRunTwice` | worker/src/aagasa_worker/planstore.py:228-240 | a run in which the handler is invoked twice for one pass |
| `WorkerCore.UnrecordedExactlyWhenLost` | worker/src/aagasa_worker/planstore.py:324-336 | a finished pass has no record, now or ever, exactly when the process was lost between the two statements or the second of them failed |
| `WorkerCore.VerdictIsRecorded` | worker/src/aagasa_worker/executor.py:116-127 | a returning handler is closed and recorded as completed exactly when it succeeded, failed otherwise, and no other row changes |
| `WorkerCore.RecoveryCompletes` | worker/src/aagasa_worker/planstore.py:359-377 | left alone, the recovery steps are the store's recovery of exactly the executing rows |
| `WorkerCore.SweepCompletes` | worker/src/aagasa_worker/planstore.py:338-357 | left alone, the sweep steps are the store's sweep of exactly the rows whose window is over |
| `WorkerCore.PickedExactlyWhenDue` | worker/src/aagasa_worker/executor.py:91-107 | a pass is picked exactly when it waits, its window is open, its rise is at most a minute away and no other such pass rises earlier |
| `WorkerCore.ClaimBegins` | worker/src/aagasa_worker/executor.py:109-117 | a picked pass that still waits is claimed, recorded and begun; one that no longer does is let go |
| `WorkerCore.RecordCanBeLost` | worker/src/aagasa_worker/planstore.py:324-336 | a run that loses a record for good |
| `SecondExecution.HandlerRunsTwice` | server/go/internal/scheduling/service.go:311-329 | a run of Server, network and Worker together, from booking to restart, in which the handler is invoked twice for one pass |
| `SecondExecution.SceneExists` | server/go/internal/passplan/generator.go:283-297 | its premises are met for every hash that tells two encodings of a plan apart |
| `Protocol.RunReportInv` | server/go/internal/workerapi/upload.go:216-259 | over every run each report is true of the history it came from, and each outcome on the Server was recorded by the Worker |
| `Protocol.OutcomeAgreement` | server/go/internal/workerapi/upload.go:216-274 | whenever the Server says completed the Worker's row is completed, and likewise for failed and for missed |
| `Protocol.FirstReportWins` | server/go/internal/store/recordings.go:80-89 | once a pass is terminal on the Server no step, replays included, changes its status |
| `Protocol.AcknowledgedIsSettled` | worker/src/aagasa_worker/uploads.py:83-93 | a record the Worker counts as delivered belongs to a pass that is neither pending, approved nor executing on the Server, and completed, failed or missed there only if the record says so |
| `Protocol.TextInjective` | server/go/internal/passplan/generator.go:315-321 | concatenating digests of one length is injective |
| `Protocol.SetGenerationInjective` | server/go/internal/passplan/generator.go:283-321 | barring a collision among the inputs at hand, equal set generations are equal lists of plans |
| `Protocol.SyncFollows` | worker/src/aagasa_worker/sync.py:28-59 | after applying an answer the unfinished rows are exactly its plans of a known version, with their generations |
| `Protocol.EventFollows` | worker/src/aagasa_worker/planstore.py:305-376 | executing plans never breaks that |
| `Protocol.GenerationSoundness` | server/go/internal/workerapi/sync.go:112-146 | when a heartbeat finds the state current, every unfinished Worker plan is of this station, approved, not past and of the same generation on the Server, and every such plan of version one is present or finished |
| `Protocol.RunMints` | worker/src/aagasa_worker/planstore.py:210-240 | in every run each row is of version one and its generation is the digest of exactly the version, text and times the row holds |
| `Protocol.PlanSoundness` | server/go/internal/workerapi/sync.go:112-146 | barring a collision, when a heartbeat finds the state current every unfinished row holds exactly the Server's plan |
| `Protocol.PastPassesLeave` | server/go/internal/store/passplans.go:50-75 | as time goes on exactly the passes whose set is past leave the desired state |
| `Protocol.RoundCatchesUp` | worker/src/aagasa_worker/main.py:86-107 | a sync that is answered and applied makes the Worker current |
| `Protocol.RoundDelivers` | worker/src/aagasa_worker/uploads.py:83-93 | a report that gets through and is answered is marked delivered, and an approved pass takes exactly its outcome |
| `Exchange.RetryIsHarmless` | server/go/internal/workerapi/upload.go:216-259 | a batch interrupted anywhere and sent again whole leaves the Server where one complete delivery would |
| `Exchange.FirstReportDecides` | server/go/internal/workerapi/upload.go:216-274 | in any batch the first outcome reported for an awaiting pass becomes its status: completed, failed or missed as reported |
| `Exchange.InertExactlyWhenSettled` | server/go/internal/store/recordings.go:80-89 | a report changes nothing exactly when it carries no outcome or its pass is neither approved nor executing |
| `Exchange.WorkerService.ReportExecutions` | server/go/internal/workerapi/upload.go:216-259 | record by record, an error keeps what was written, and the count is that of records carrying an outcome |
| `Exchange.DesiredStateSync.SyncOnce` | worker/src/aagasa_worker/sync.py:28-59 | applies exactly the plans of a known version, and nothing when unchanged |
| `Exchange.DesiredStateSync.ReportOutcomes` | worker/src/aagasa_worker/uploads.py:83-93 | marks exactly the records sent, and only after an answer |
| `ExecutionLoop.RecordingFitsReservation` | server/go/internal/passplan/generator.go:97-98 | a recording stays inside its reservation exactly when the post-roll fits the post-pass buffer |
| `ExecutionLoop.SlotsInOrder` | server/go/internal/scheduling/rules.go:27-36 | of two plans with disjoint reservations the earlier one's ends before the other's begins |
| `ExecutionLoop.NothingMissed` | worker/src/aagasa_worker/planstore.py:338-357 | a loop that is in time closes no plan as missed |
| `ExecutionLoop.Executor.Execute` | worker/src/aagasa_worker/executor.py:109-128 | claims by the rise, and returns before the reservation of any plan still pending |
| `ExecutionLoop.Executor.Tick` | worker/src/aagasa_worker/executor.py:91-107 | runs the first due plan, or finds every pending plan beyond the lead |
| `ExecutionLoop.Executor.SecondsUntilNext` | worker/src/aagasa_worker/executor.py:138-146 | never sleeps past the lead of a pending plan, nor longer than the maximum |
| `ExecutionLoop.Executor.Run` | worker/src/aagasa_worker/executor.py:148-165 | no starvation: every plan rising before the loop stops is claimed, by its rise, in order of rise, and none is missed |
| `ExecutionLoop.Executor.Recover` | worker/src/aagasa_worker/executor.py:80-89 | leaves no row executing and every pending row as it was |
| `Timetable.ListingApart` | server/go/internal/store/passplans.go:50-75 | the passes of one sync answer never hold the station at the same time |
| `Timetable.RunTimes` | server/go/internal/passplan/generator.go:92-98 | over every run plans, answers and the Worker's rows carry the rise and set of their pass |
| `Timetable.WaitingPlansAreOrderly` | server/go/internal/scheduling/rules.go:27-36 | in every state of every run, however stale, the waiting plans lie inside reservations that do not overlap: the premise of the execution loop's promise |
| `FilePaths.JoinSafe` | server/go/internal/filestore/filestore.go:91-103 | joins exactly the lists of safe segments that stay under the root |
| `FilePaths.RecordingFilePath` | server/go/internal/filestore/filestore.go:55-67 | gives the file of the specification, or refuses |
| `FilePaths.PathReads` | server/go/internal/filestore/filestore.go:19-103 | an accepted file is root, station, pass and relative path joined by slashes, and exactly names of the safe alphabet and length, optionally with ".json", are accepted |
| `FilePaths.DistinctFiles` | server/go/internal/filestore/filestore.go:55-103 | distinct (station, pass, relative path) triples never share a file |
| `Text.SplitJoin` | server/go/internal/filestore/filestore.go:60-65 | pieces without separator survive joining and splitting |
| `Transfer.ReadChunks` | worker/src/aagasa_worker/recordings.py:180-187 | the chunks are not empty, not too long, and put together are the file |
| `Transfer.ReceiveContent` | server/go/internal/workerapi/upload.go:122-183 | the whole content, or nothing above the limit |
| `Transfer.RecordingServer.UploadRecording` | server/go/internal/workerapi/upload.go:25-120 | renames before comparing; on a mismatch the file goes and no row is written; a known id is held already |
| `Transfer.StoreKeepsRows` | server/go/internal/workerapi/upload.go:67-80 | no upload, however it ends, disturbs the row or the file of a recording already held |
| `Transfer.HeldExactlyWhenSound` | server/go/internal/workerapi/upload.go:60-119 | a recording is newly held if and only if its path is accepted, the upload finished, and the data is within the limit with the announced size and checksum; then its row names it and its file is exactly the data |
| `Transfer.HonestUploadArrives` | worker/src/aagasa_worker/uploads.py:47-81 | after any run, uploading what is on disk with the answer received flags the recording and puts exactly the original on the Server, or finds it held |
| `Transfer.RegisteredExactly` | worker/src/aagasa_worker/recordings.py:63-95 | registering records size and digest of the content, once, and never an empty file |
| `Transfer.RemovedExactly` | worker/src/aagasa_worker/uploads.py:118-129 | retention removes exactly a confirmed recording, or any under pressure |
| `Transfer.EveryRowIsBacked` | server/go/internal/store/recordings.go:38-52 | over every run every Server row points to a file of exactly its size and checksum |
| `Transfer.LostExactlyWhenSacrificed` | worker/src/aagasa_worker/uploads.py:47-135 | a registered recording is on neither side exactly when its only copy was deleted under disk pressure, and one flagged uploaded is always on the Server |
| `Retention.OrderSelects` | worker/src/aagasa_worker/recordings.py:116-147 | without pressure exactly the confirmed recordings of twelve hours are selected; under pressure all of them, in three classes, each oldest first |
| `Retention.SelectForCleanup` | worker/src/aagasa_worker/recordings.py:116-147 | computes that order |
| `Retention.UnconfirmedGoesLast` | worker/src/aagasa_worker/uploads.py:95-129 | an unconfirmed recording is deleted only after every confirmed one was tried and every measurement since was still at the threshold |
| `Retention.EnforceRetention` | worker/src/aagasa_worker/uploads.py:95-135 | tries the candidates in order, stops early only under pressure and after a measurement below nine tenths, and counts what it deleted |
| `Rotator.ClampAzimuth` | worker/src/aagasa_worker/hardware/rotator.py:36-38 | within 0..359, rounded down and held at the ends, and less than a degree off exactly for azimuths strictly between -1 and 360 |
| `Rotator.ClampElevation` | worker/src/aagasa_worker/hardware/rotator.py:41-43 | within 0..90, rounded down and held at the ends, and less than a degree off exactly for elevations strictly between -1 and 91 |
| `Text.PaddedReadsBack` | worker/src/aagasa_worker/hardware/rotator.py:31-33 | a zero-padded number reads back, and fits its field |
| `Rotator.CommandShape` | scripts/simulated-hardware/rotator.py:23 | a command for a legal position matches the move pattern and is answered by a move to that position |
| `Rotator.MovesExactlyOnCommands` | scripts/simulated-hardware/rotator.py:68-73 | the controller moves on exactly the lines that are commands of four and three digits, and to the position they say |
| `Rotator.QueryAnswersLastMove` | scripts/simulated-hardware/rotator.py:74-77 | a position query is answered with the position last moved to |
| `Rotator.Serve` | scripts/simulated-hardware/rotator.py:57-81 | whatever the chunking, the buffered decoder ends where a byte-at-a-time decoder ends on the whole stream |
| `Rotator.DecodesExactly` | worker/src/aagasa_worker/hardware/rotator.py:121-130 | for any attempts, failed ones of any length included, the exact replies of the controller: an incomplete command waits in the buffer and costs the next complete one |
| `Rotator.DecodesWhatWasCommanded` | worker/src/aagasa_worker/hardware/rotator.py:83-103 | the decoder carries out exactly the positions whose sending succeeded if and only if every command that got through whole was acknowledged and none of them followed one left in pieces |
| `Rotator.TornCommandCostsTheNext` | worker/src/aagasa_worker/hardware/rotator.py:121-130 | torn commands, one or several and with empty failures among them, lose exactly the next command that gets through whole |
| `Rotator.MovesUnacknowledged` | worker/src/aagasa_worker/hardware/rotator.py:121-130 | a port failing after the last byte moves the antenna with nothing counted as commanded |
| `Rotator.StreamRoundTrip` | scripts/simulated-hardware/rotator.py:57-81 | rotator to controller, for every chunking of the wire: the exact replies, positions within 0..359 and 0..90, and the round trip if and only if its condition holds |
| `Rotator.ServeRotator` | scripts/simulated-hardware/rotator.py:57-81 | the same of the buffered loop on the rotator's own wire |
| `Rotator.G550.MoveTo` | worker/src/aagasa_worker/hardware/rotator.py:83-89 | refuses illegal angles before touching the port, and remembers a position only if it was sent |
| `Rotator.G550.TrackTo` | worker/src/aagasa_worker/hardware/rotator.py:91-98 | on success within a degree of the target exactly when the target is reachable |
| `Rotator.G550.Park` | worker/src/aagasa_worker/hardware/rotator.py:100-103 | one attempt, at the park position |
| `StationSafety.OneAtEveryMoment` | worker/src/aagasa_worker/hardware/station.py:161-198 | the invariant of the capture log means at most one living process at every moment |
| `StationSafety.AliveExactlyWhileStarted` | worker/src/aagasa_worker/hardware/station.py:161-164 | a process is alive exactly when the last thing that happened to it is its start |
| `StationSafety.Station.StopProcess` | worker/src/aagasa_worker/hardware/satdump.py:255-282 | unless it raises, nothing is alive afterwards, and its result is good exactly when the process exited with zero or was stopped |
| `StationSafety.Station.StartCapture` | worker/src/aagasa_worker/hardware/station.py:166-178 | refuses while one is running, collects one that exited, and fills the slot exactly on success |
| `StationSafety.Station.StopCapture` | worker/src/aagasa_worker/hardware/station.py:180-191 | empties the slot and leaves nothing alive; a raising stop leaves the slot |
| `PassExecution.StationPassHandler.Point` | worker/src/aagasa_worker/pass_execution.py:244-261 | whenever no failure is reported, skipped or sent, the last commanded position is within a degree of the target exactly when the target is reachable |
| `PassExecution.StationPassHandler.Track` | worker/src/aagasa_worker/pass_execution.py:231-242 | that holds after every point of the track, and only shutdown or an exception cuts the track short |
| `PassExecution.StationPassHandler.SafeFinish` | worker/src/aagasa_worker/pass_execution.py:263-275 | the last thing asked of the rotator is to park, and a capture survives only a stop that raised |
| `PassExecution.StationPassHandler.Prepare` | worker/src/aagasa_worker/pass_execution.py:126-150 | goes on only at or after the start of the recording, with captures untouched |
| `PassExecution.StationPassHandler.Record` | worker/src/aagasa_worker/pass_execution.py:152-165 | the slot is empty afterwards and the verdict says whether this pass's own capture ended well |
| `PassExecution.StationPassHandler.Execute` | worker/src/aagasa_worker/pass_execution.py:86-165 | for every failure and shutdown point: never two captures, none alive at the end unless the last stop raised, parking last; a plan is refused exactly for its version, closed window, missing track or radio settings, and then touches nothing; no capture without SatDump or the space it needs; success exactly when this pass's capture started and ended well; started and stopped no earlier than the recording window says |
| `Jsonc.StripJsoncComments` | worker/src/aagasa_worker/hardware/satdump.py:37-84 | the index-jumping loop computes the token-level specification |
| `Jsonc.TokensCoverText` | worker/src/aagasa_worker/hardware/satdump.py:50-82 | the tokens, comments included, are the text |
| `Jsonc.StripKeepsTokens` | worker/src/aagasa_worker/hardware/satdump.py:37-84 | reading the output gives exactly the tokens that were not comments |
| `Jsonc.StripIdempotent` | worker/src/aagasa_worker/hardware/satdump.py:37-84 | stripping twice is stripping once |
| `Jsonc.UnchangedExactlyWhenCommentFree` | worker/src/aagasa_worker/hardware/satdump.py:37-84 | a text is unchanged if and only if it holds no comment |
| `Jsonc.NoOpenerOutsideStrings` | worker/src/aagasa_worker/hardware/satdump.py:70-78 | outside strings the output has no comment and no pair of characters that opens one |
| `Tle.Checksum` | server/go/internal/tle/tle.go:103-114 | digits count their value, a minus sign one, anything else nothing, modulo ten |
| `Tle.ValidateLine` | server/go/internal/tle/tle.go:82-101 | the checks on a line, in order; malformed exactly for its length, first two columns or a last one that is no digit |
| `Tle.BodyReplacement` | server/go/internal/tle/tle.go:96-114 | a replaced character in the body of an accepted line goes unnoticed exactly when it weighs the same |
| `Tle.DigitReplacementDetected` | server/go/internal/tle/tle.go:82-114 | any accepted line with one digit replaced by a different digit is rejected |
| `Tle.Parse` | server/go/internal/tle/tle.go:29-46 | the result depends only on the right-trimmed lines that are not blank |
| `Tle.AtoiReads` | server/go/internal/tle/tle.go:116-135 | numbers are read with their sign |
| `Tle.CatalogReads` | server/go/internal/tle/tle.go:116-123 | the catalogue number is the one in columns three to seven, and zero is none |
| `Tle.EpochReads` | server/go/internal/tle/tle.go:125-149 | the epoch's year has the two digits of its columns and lies between 1957 and 2056, and its day is the rest of the field, refused exactly below one or when unreadable |
| `Tle.PanicsExactlyOnShortEpoch` | server/go/internal/tle/tle.go:125-131 | the parser panics on exactly the texts whose two element lines pass every check before the epoch and leave fewer than two characters in its columns |
| `Tle.ParserCanPanic` | server/go/internal/tle/tle.go:125-131 | there is such a text: two lines blank but for number, catalogue number and checksum |
| `Tle.LayoutIgnored` | server/go/internal/tle/tle.go:29-46 | carriage returns, trailing blanks and blank lines anywhere do not matter |
| `Tle.RenderParsesBack` | server/go/internal/tle/tle.go:29-80 | a parsed set rendered as text, the title prefixed with "0 " and omitted when empty, parses to the same set |
| `Tle.RenderableParsesBack` | server/go/internal/tle/satnogs.go:80 | so does every set whose lines are valid and whose name is trimmed and on one line |
| `Prediction.StepCountBounds` | server/python/src/aagasa_prediction/predictor.py:152-153 | the count is the whole number of steps in the duration |
| `Prediction.TrackOffsetsSample` | server/python/src/aagasa_prediction/predictor.py:146-162 | refused exactly from 5001 steps on; otherwise the offsets start at zero, are whole steps, increase by at most a step, end exactly at the duration and number at most 5002 |
| `Prediction.TriplesExact` | server/python/src/aagasa_prediction/predictor.py:109-113 | lists exactly the consecutive rise, culminate, set triples, in order, no two sharing an event |
| `Prediction.PredictPasses` | server/python/src/aagasa_prediction/predictor.py:106-140 | the scan returns the first such passes up to the limit, or an error as soon as one timeline is refused |
| `Prediction.PassReads` | server/python/src/aagasa_prediction/predictor.py:115-136 | a pass rises, culminates and sets at the three times of its triple, and is refused only for its timeline |
| `Prediction.PassCount` | server/python/src/aagasa_prediction/predictor.py:106-140 | as many passes as triples, up to the number asked for, or a hundred |
| `Prediction.PassesDisjoint` | server/python/src/aagasa_prediction/predictor.py:109-140 | over increasing event times each pass rises, culminates and sets before the next rises |

## Left out

- Concurrent uploads of one recording: the content is renamed into place before its checksum is compared, so the model serialises uploads of a recording.
- SetPassStatus: the unguarded status write of the repository is not called by the modelled operations and is not a step.
- Audit records other than the override's, log text and warning messages: they carry no property.
- Role predicates, band warnings, visibility, satellite and station lookups: single-branch checks; whether a caller may act and whether a lookup succeeds are parameters.
- Postgres, SQLite and Redis themselves: transactions are atomic, and a failing statement of the Worker's store is the step `Fault`.
- Two configuration saves with the same creation time: the queries leave their order open.
- Radio settings, pipelines and the contents of a plan beyond its window, version and track: copied, not computed with.
- Sync answers of "unchanged" and the heartbeat's bookkeeping columns: the heartbeat is modelled by what it compares.
- upload_pending and main-loop back-off: the order in which uploads, reports and syncs happen is left open, so every order is covered.
- Floating-point rounding in the timeline, the angles and the epoch: arithmetic is exact, and the epoch is kept as year and day of year.
- Not-a-number angles: an angle is a real; any exception while pointing is covered as an arbitrary exception.
- Unicode white space and multi-byte characters in element sets: text is a sequence of characters and blanks are those of ASCII.
- Skyfield, SGP4, SatDump, rtl_test and serial-port internals: their results are arbitrary.
- Station start-up, shutdown and probing of pipelines: easy next to the execution of a pass.
- HTTP, gRPC, protobuf, TLS, sessions, passwords, the mobile and web clients: plumbing and user interface.
