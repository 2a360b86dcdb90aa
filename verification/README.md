# A verified model of Syncmaster

Syncmaster moves data between stores. A server, a scheduler and workers share one relational
database and a task queue; a few scripts rewrite its documentation. This project restates the
parts of that program whose correctness depends on more than one function, and proves what they
promise. Code that changes things step by step is a class or a loop here as it is there, proved
against a specification function; the lemmas are about those functions and about whole runs.

`dafny verify dfyconfig.toml` checks everything.

| file | what it models |
|---|---|
| `Scheduler.dfy`, `Recovery.dfy` | the reconciliation loop: job store, watermark, restarts, every interleaving with commits, and how it gets over what it missed |
| `Runs.dfy`, `RunOutcomes.dfy` | the life of a run: server, scheduler, broker with redelivery, workers, stops, deletions, and what its status tells about its execution |
| `HighWater.dfy`, `HighWaterReads.dfy` | incremental transfers with a high-water mark, runs that fail at any point, and what successful runs read |
| `Database.dfy`, `Operations.dfy`, `Server.dfy` | the tables and endpoints of groups, connections, queues and transfers, and both ways to start a run |
| `Permissions.dfy`, `Admission.dfy`, `Effects.dfy` | who may do what, when a request succeeds, and what it then does to the rows |
| `Uniqueness.dfy`, `Credentials.dfy`, `Reachable.dfy`, `Copies.dfy` | what every history of requests keeps, guarded deletions, and what becomes of copies |
| `Splitting.dfy`, `Search.dfy` | the two word splitters and the full-text query |
| `Filters.dfy`, `Sql.dfy`, `FilterMeaning.dfy` | row filters as WHERE expressions, and an SQL reader that gives them meaning |
| `CodeBodies.dfy`, `CodeBlocks.dfy`, `Tabs.dfy`, `TabTrees.dfy`, `Admonitions.dfy`, `AdmonitionHeaders.dfy`, `AdmonitionTrees.dfy`, `Doctests.dfy` | the four line passes over a docstring, and what they do to the nesting of tabs and admonitions |
| `Docstrings.dfy`, `CodeThenDoctests.dfy`, `Splice.dfy`, `Dedent.dfy`, `DedentExtents.dfy` | the passes in sequence, where two of them disturb each other, putting docstrings back into a file, and taking out superfluous indentation |
| `FileNames.dfy`, `RunNames.dfy` | file name templates, and what a name tells about file and run |
| `Extensions.dfy`, `Renaming.dfy`, `FileDelivery.dfy` | extensions, renaming in place, and the move to the target |
| `Pages.dfy` | page objects and the walk along `next_page` |
| `Text.dfy`, `Sequences.dfy`, `Collections.dfy`, `Wrappers.dfy` | numerals, white space, subsequences, finite maps, results |

## What was found

Where a promise does not hold for every input, the code is modelled as it is, and a lemma says
exactly when it does hold, or, where "Left out" says so, when it is sure to hold.

- A copied transfer keeps its origin's `updated_at`. If the origin is scheduled and the scheduler
  has already passed that stamp, the copy is never scheduled until it is touched again or the
  scheduler restarts (`Scheduler.CopyKeepsInvIffHarmless`, `Scheduler.HarmfulCopyIsNeverScheduled`).
  A restart and one undisturbed pass always heal it (`Recovery.RestartSchedulesTheCopy`), and so does a
  commit to the copy (`Recovery.CommitTakesEffect`); no other row is ever affected
  (`Recovery.RowStaysRight`).
- A delivery that fails while it prepares a run writes FAILED later, in a second transaction. A
  redelivery in between can execute and finish the run, and the late write then turns FINISHED
  into FAILED (`RunProtocol.OverlapLosesFinished`). That is the only way
  (`RunProtocol.ClaimIsSafeIffNotOverlapping`). A run is still executed at most once.
- A high-water mark of zero counts as no mark, and a full run with the mark store disabled leaves
  a stale mark; both can lose rows, and nothing else can (`HighWater.RunIsSafeIffGuarded`).
- Updating a transfer checks the request's `group_id` but never writes it, so a transfer can end
  up with connections and queue of another group. The guard of `delete_queue` looks only inside
  the queue's group and then misses it (`Reachable.UpdateKeepsOwnGroupIff`,
  `Reachable.DeleteQueueDestroysNothingIff`, `Reachable.DriftThenDeleteQueueDestroys`).
- `copy_connection` with `remove_source` has no guard for linked transfers
  (`Reachable.MovingConnectionDestroysNothingIff`).
- Both copy endpoints leave the new connections without credentials
  (`Copies.CopiedConnectionHasNone`, `Copies.CopiedTransferHasNone`), and nothing ever adds them:
  through every history updates of such a connection are refused, and transfers that use it start neither on
  request nor on schedule (`Copies.ConnectionWithoutCredentialsIsStuck`). A fresh copy of a transfer
  never starts until an update points it away from both copied connections
  (`Copies.FreshCopyNeverStarts`). Without copies every connection has credentials and every transfer
  starts (`Copies.WithoutCopiesEverythingStarts`).
- The docstring of the doctest pass promises to act only outside fences; a block of prompts that
  itself contains fence lines can come out badly fenced (`Doctests.FencingWorksIffBalanced`,
  `Doctests.PromptBehindFenceIsLost`). Such fence lines also come from the code pass, when a code
  directive stands in a block of prompts. Which docstrings come out of both passes with all prompts
  fenced is told from their own lines (`CodeThenDoctests.BothPassesFenceIff`); without fences in the
  docstring only such a directive can do harm (`CodeThenDoctests.FenceFreeDocstringIff`).
- The header of a plain tab moves left by the indent of its wrapper, to line up with the surrounding text as
  a comment has it (`mddocs/scripts/rst2md.py:246`), while the lines under it and behind it stay. In a
  docstring indented by eight or more the paragraph behind the tabs then becomes part of the last tab
  (`Tabs.ParagraphBehindTabsIsSwallowed`). A lone tab keeps its lines, whatever follows, only under a
  wrapper exactly three deep (`Tabs.TabAlwaysOwnsTheSameIff`), properly indented ones exactly if the
  next line is shallow enough (`Tabs.TabOwnsTheSameIff`), and whole texts with wrappers, nested tabs
  and code tabs keep their nesting exactly if every tab holds together
  (`TabTrees.TreePreservedIffTidy`).
- Inline admonitions leave the lines under them where they are, so deeper lines can fall out of
  the Markdown block (`AdmonitionTrees.TreePreservedIffTidy`).
- The template validator looks for `{index}` in the text, so `{{index}}` passes it and every file
  gets the same name (`FileNames.DoubledBracesHideTheIndex`).
- The remote write renames all files and then moves those that match `*.extension`. A template
  that does not end in `.{extension}` can leave every file behind, and the temporary directory is
  removed afterwards (`FileDelivery.MoverSuitsEveryFormatIff`). A template that does end so
  selects every renamed file, metadata files included, against the comment beside the filter.
- In a template with one `{run_id}` and one `{index}`, files of different runs can get the same name
  if and only if nothing but digits stands between the two (`RunNames.OneOfEachFixesIff`,
  `RunNames.AdjacentNumeralsCollide`). With repeated placeholders and no digits between them they can
  if and only if all stretches between other characters show the two numerals in one proportion
  (`RunNames.TogetherFixesIff`).
- Names and values of row filters are put between quotes as they are. The expression reads back as
  the filters if and only if none contains the quote around it (`FilterMeaning.WhereReadsBackIff`); a
  value with an apostrophe can be read as two filters (`FilterMeaning.ValueReadsAsTwoFilters`).

## Assumptions about the surroundings

- Each create or update of a transfer commits with an `updated_at` newer than any earlier commit;
  ids are never reused. The copy endpoint is the exception that the code itself makes.
- Each endpoint's checks and its commit are one step. A worker's claim (select CREATED, commit
  STARTED) is one step. A failed send delivers nothing. All workers read one clock that never goes
  back; that a run does not end before it starts rests on it.
- onETL reads the rows whose key is above the mark it is given and stores the new mark only when
  the run ends without an error. The source table only gains rows, with larger keys.
- A rename replaces a file that has the new name. The file mover never overwrites: a file whose
  name is taken at the target stays in the temporary directory.
- SQL is read as in ISO/IEC 9075-2: NOT binds weaker than a predicate and stronger than AND, a
  doubled quote inside quotes stands for itself, and LIKE (section 8.5) has `%` and `_` and no
  escape character. Lower case works character by character and neither makes nor destroys a
  wildcard.

## Model

| member | source | states |
|---|---|---|
| Scheduler.TransferJobManager.UpdateJobs | syncmaster/scheduler/transfer_job_manager.py:27-51 | the loop's adds, modifications and removals leave the job store that applying the batch row by row defines; `ApplyAllIsExact` says what that is |
| Scheduler.ApplyAllIsExact | syncmaster/scheduler/transfer_job_manager.py:27-51 | after a batch each of its transfers has a job exactly if it is scheduled, with its own schedule, and no other job has changed |
| Scheduler.TransferJobManager.RemoveOrphanJobs | syncmaster/scheduler/transfer_job_manager.py:53-69 | exactly the jobs without a transfer row disappear, whatever order the set is walked in |
| Scheduler.TransferFetcher.FetchUpdatedJobs | syncmaster/scheduler/transfer_fetcher.py:24-34 | returns each row newer than the watermark once, every row when there is no watermark, and nothing else |
| Scheduler.MaxUpdatedAt | syncmaster/scheduler/__main__.py:36-36 | the new watermark is attained by a fetched row and bounds them all |
| Scheduler.Pass | syncmaster/scheduler/__main__.py:22-36 | one undisturbed turn of the loop, from any leftover job store, makes the store equal a full comparison with the table and the watermark cover every row |
| Scheduler.SettledIsIdeal | syncmaster/scheduler/transfer_job_manager.py:53-69 | no orphan jobs and agreement on every row is the same as equality with the full comparison |
| Scheduler.StepKeepsInv | syncmaster/scheduler/__main__.py:22-42 | every step of loop, restart or environment except copying keeps the invariant that yields agreement at or below the watermark |
| Scheduler.CopyKeepsInvIffHarmless | syncmaster/db/repositories/base.py:39-68 | the copy endpoint, which duplicates `updated_at`, keeps the invariant if and only if the origin is not scheduled or is newer than all the scheduler has fetched |
| Scheduler.AgreementAlways | syncmaster/scheduler/__main__.py:22-36 | over every interleaving without a harmful copy, each row at or below the watermark has a job exactly if scheduled, with its schedule |
| Scheduler.AgreementFromStart | syncmaster/scheduler/transfer_fetcher.py:19-34 | the same for a scheduler that has just started over any old job store |
| Scheduler.LoopStepStaysOnCourse | syncmaster/scheduler/__main__.py:22-36 | an undisturbed pass makes progress with each of its steps |
| Scheduler.LastStepSettles | syncmaster/scheduler/__main__.py:34-36 | the last step of an undisturbed pass leaves the full comparison |
| Scheduler.UndisturbedPassReachesIdeal | syncmaster/scheduler/__main__.py:22-36 | after any number of undisturbed passes from any state of the invariant the job store is the set of scheduled transfers; what a restart does is in `Recovery.RestartHeals` |
| Scheduler.OverlookedStaysOverlooked | syncmaster/scheduler/transfer_fetcher.py:29-34 | a row that the watermark has passed without a job stays without one until it is touched or the scheduler restarts |
| Scheduler.HarmfulCopyIsNeverScheduled | syncmaster/server/api/v1/transfers.py:226-233 | a harmful copy is in the table, scheduled, and has no job, after any steps that do not touch it |
| Recovery.RowStaysRight | syncmaster/scheduler/__main__.py:22-42 | the invariant row by row: over every interleaving, harmful copies of other rows included, a row that is right stays right |
| Recovery.TouchRenewsRow | syncmaster/scheduler/transfer_fetcher.py:19-34 | a commit to a row, or a restart, puts it right however wrong it was |
| Recovery.PassSettlesRow | syncmaster/scheduler/__main__.py:22-36 | an undisturbed pass leaves the job that each right row asks for, and none for a row that is gone |
| Recovery.PassCanBeFinished | syncmaster/scheduler/__main__.py:22-36 | from every state that the loop can be in, a pass in progress can be brought to its end |
| Recovery.RestartHeals | syncmaster/scheduler/transfer_fetcher.py:19-34 | from any state whose identifiers and stamps are accounted for, overlooked rows included: after a restart every undisturbed pass ends in the full comparison |
| Recovery.RestartCanHeal | syncmaster/scheduler/__main__.py:17-36 | and there is such a pass |
| Recovery.RestartSchedulesTheCopy | syncmaster/scheduler/__main__.py:17-36 | the copy that nothing scheduled has its job, with its origin's schedule, after a restart and one pass, and that pass exists |
| Recovery.CommitTakesEffect | syncmaster/scheduler/transfer_fetcher.py:24-34 | in any state and with any steps in between, the first whole undisturbed pass after a creation, update or deletion leaves the job that the committed row asks for, or none |
| Runs.RunTable.Create | syncmaster/db/repositories/run.py:52-69 | one run more, for this transfer, in status CREATED, without timestamps and open to a claim; every other run is as it was |
| Runs.RunTable.UpdateStatus | syncmaster/db/repositories/run.py:71-75 | changes one status, or reports a missing run and changes nothing |
| Runs.RunTable.Stop | syncmaster/db/repositories/run.py:77-83 | requests a stop exactly for CREATED and STARTED runs; otherwise names the status that forbids it and changes nothing |
| Runs.RunTable.Claim | syncmaster/worker/transfer.py:59-98 | only a CREATED run is claimed, and a claim sets STARTED and the start time; a failed preparation leaves the row as it was |
| Runs.RunTable.Conclude | syncmaster/worker/transfer.py:117-123 | writes the outcome and the end time into whatever status it finds; a deleted run is skipped |
| Runs.RunTable.DeleteTransfer | syncmaster/db/models/run.py:39-44 | the cascade removes, row by row, exactly the runs of the deleted transfer and leaves the others unchanged |
| Runs.WithoutTransferIs | syncmaster/db/models/run.py:39-44 | the deletion step of the protocol is the cascade described row by row |
| RunProtocol.ExecutedAtMostOnce | syncmaster/worker/transfer.py:63-97 | whatever is redelivered, stopped, crashed, failed or deleted, no run's transfer is executed twice |
| RunProtocol.StoppedBeforeClaimNeverExecutes | syncmaster/db/repositories/run.py:77-83 | a run that was stopped, failed or deleted before a claim is never executed |
| RunProtocol.StepKeepsOnceInv | syncmaster/worker/transfer.py:63-98 | the link between status and number of executions that every step keeps |
| RunProtocol.StepKeepsInv | syncmaster/worker/transfer.py:59-126 | every step that does not overlap keeps the protocol invariant and moves no status backwards |
| RunProtocol.StatusesOnlyGoForward | syncmaster/worker/transfer.py:109-123 | over whole runs of the system no status goes back in rank, FINISHED and FAILED are never left, and deleted runs stay deleted; which of the two a run ends in is `RunOutcomes.OutcomeDecidesStatus` |
| RunProtocol.AtMostThreeChanges | syncmaster/db/models/run.py:18-24 | a run's status changes at most three times, fewer from a later status |
| RunProtocol.InitialStateIsSafe | syncmaster/worker/transfer.py:91-123 | from an empty system FINISHED implies both timestamps, start not after end |
| RunProtocol.OverlapLosesFinished | syncmaster/worker/transfer.py:80-123 | after any overlapping claim there is a history in which the run is FINISHED and then FAILED |
| RunProtocol.ClaimIsSafeIffNotOverlapping | syncmaster/worker/transfer.py:59-123 | a claim is safe in every continuation if and only if no earlier delivery still has its failure to write |
| RunOutcomes.FinishedMeansSuccess | syncmaster/worker/transfer.py:109-123 | over every history, overlapping ones included: a run is FINISHED only if the worker that was given it reported success, never if its execution failed, and each run belongs to the existing transfer it was started for |
| RunOutcomes.EntryComesFromTrace | syncmaster/worker/transfer.py:63-122 | every recorded end of an execution is a step of the worker to which an earlier delivery gave the run |
| RunOutcomes.OutcomeDecidesStatus | syncmaster/worker/transfer.py:109-123 | without overlap, once the outcome is written the run is FINISHED if and only if its execution succeeded and FAILED otherwise, for good and with both timestamps; a run whose message was refused is FAILED and never executed |
| RunOutcomes.LifeOfARun | syncmaster/worker/transfer.py:59-126 | from any state a run can be started, sent, delivered, executed and concluded, and then has the status of its execution and the times of claim and outcome |
| RunOutcomes.FailedPreparationIsWritten | syncmaster/worker/transfer.py:79-123 | a delivery that cannot prepare the run leaves it FAILED and unexecuted |
| RunOutcomes.RefusedSendIsWritten | syncmaster/scheduler/transfer_job_manager.py:103-113 | a run whose message is refused ends FAILED |
| RunOutcomes.CrashedSenderNeverExecutes | syncmaster/scheduler/transfer_job_manager.py:94-109 | a run whose sender crashes before the broker has the message is never executed |
| RunOutcomes.StopTakesEffect | syncmaster/db/repositories/run.py:77-83 | a stop request reaches exactly the runs that have not got past STARTED, and no other run |
| RunOutcomes.StopBeforeClaimTakesEffect | syncmaster/db/repositories/run.py:77-83 | a run that is stopped while CREATED is never executed |
| RunOutcomes.DeletedTransferHasNoRuns | syncmaster/db/models/run.py:39-44 | after its deletion a transfer has no run, for ever |
| HighWater.ReaderAndControllerAgree | syncmaster/worker/controller.py:301-313 | the controller resets and looks up the mark under the name the reader stores it under (worker/handlers/db/base.py:50) |
| HighWater.MarkNamesTellTransfersApart | syncmaster/worker/handlers/db/base.py:46-54 | marks of different transfers have different names, for all types and tables |
| HighWater.TransferController.constructor | syncmaster/dto/transfers.py:30-33 | database transfers start with the mode that replaces the table, and without a mark |
| HighWater.TransferController.PerformTransfer | syncmaster/worker/controller.py:217-240 | one run with a failure at any point changes tables and marks as `AfterRun` says |
| HighWater.TransferController.PerformIncrementalTransfer | syncmaster/worker/controller.py:290-299 | both handlers work from the mark that was stored before, and the mark moves only after a complete write; that it is stored, and where, is `SuccessfulRunStoresMark` |
| HighWater.TransferController.ResetTransferHwm | syncmaster/worker/controller.py:315-325 | clears a mark whose value is truthy and no other |
| HighWater.TransferController.Write | syncmaster/worker/handlers/db/base.py:75-84 | appends exactly for an incremental run with a truthy mark and replaces otherwise; a failed write leaves what had arrived |
| HighWater.ReadIsComplete | syncmaster/worker/handlers/db/base.py:46-64 | a read has every row above the mark as often as the source, nothing lies above the next mark, and that is a key of the source |
| HighWater.FullRunKeepsInv | syncmaster/worker/controller.py:234-238 | reset before replace: a guarded full run, that is one without a mark or with a mark that is not zero and the store enabled, keeps the invariant wherever it fails |
| HighWater.IncrementalRunKeepsNoLostRows | syncmaster/worker/controller.py:290-299 | a guarded incremental run, that is from no mark or one that is not zero, keeps every source row at or below the stored mark in the target, wherever it fails |
| HighWater.IncrementalRunKeepsExactness | syncmaster/worker/handlers/db/base.py:75-84 | a guarded incremental run keeps this: while no run has failed since the last replace, the target is, as a multiset, the source as last read |
| HighWater.GrowthKeepsInv | syncmaster/worker/handlers/db/base.py:46-54 | rows that arrive with larger keys keep the invariant |
| HighWater.RunIsSafeIffGuarded | syncmaster/worker/controller.py:234-235 | no failure loses rows if and only if the mark is not zero and a full run with a mark has the store enabled |
| HighWater.ZeroMarkLosesRowsWithoutAnyFault | syncmaster/worker/handlers/db/base.py:76-77 | with a stored mark of zero a successful incremental run loses the row that set it |
| HighWater.RunKeepsInv | syncmaster/worker/controller.py:217-240 | every guarded run keeps the whole invariant |
| HighWater.NoRowIsEverLost | syncmaster/worker/controller.py:217-325 | over any sequence of arrivals and runs, full and incremental, with the mark store enabled or not in each, failing anywhere, the invariant holds as long as each run meets the exact condition of RunIsSafeIffGuarded |
| HighWater.OrdinaryTracesAreGuarded | syncmaster/worker/controller.py:234-235 | with positive keys, and the store enabled in full runs, every run of every history meets that condition |
| HighWater.NeverRunIsSafe | syncmaster/worker/controller.py:290-325 | in such histories a transfer without a mark, whatever its target holds, never loses a row, and its target is the source as last read when no run failed since the last replace |
| HighWater.OtherMarksUntouched | syncmaster/worker/controller.py:301-325 | a run changes no other transfer's mark |
| HighWater.SuccessfulRunStoresMark | syncmaster/worker/handlers/db/base.py:46-54 | after a successful incremental run over a table with rows, the first one included, the stored mark is the key of a row and no row lies above it |
| HighWater.NothingIsReadAgain | syncmaster/worker/controller.py:290-299 | the next run without arrivals reads nothing and changes neither target nor mark |
| HighWater.SuccessfulFullRunCopies | syncmaster/worker/controller.py:234-240 | a successful full run leaves a copy of the table and no mark |
| HighWaterReads.EachRowIsReadOnce | syncmaster/worker/handlers/db/base.py:46-64 | from no mark, over any history of arrivals and successful incremental runs, what was read and what the next run would read is the whole table, each row once and in order |
| HighWaterReads.TargetIsWhatWasRead | syncmaster/worker/handlers/db/base.py:75-84 | with positive keys, from the first run on the target holds exactly what was read, whatever it held before |
| Server.Store.DoCreateGroup | syncmaster/server/api/v1/groups.py:61-73 | the step-by-step endpoint has the outcome and the state that the specification of Operations gives, taken name included |
| Server.Store.DoUpdateGroup | syncmaster/server/api/v1/groups.py:98-139 | the same for changing and handing over a group, with rollback of a half-done handover |
| Server.Store.DoDeleteGroup | syncmaster/server/api/v1/groups.py:142-152 | superusers only; the group goes with everything that cascades from it |
| Server.Store.DoAddMember | syncmaster/server/api/v1/groups.py:208-236 | refuses the owner, members and unknown users in that order |
| Server.Store.DoUpdateMember | syncmaster/server/api/v1/groups.py:179-205 | changes one existing membership row |
| Server.Store.DoRemoveMember | syncmaster/server/api/v1/groups.py:239-262 | members may remove themselves, only those who may delete may remove others |
| Server.Store.ListGroups | syncmaster/db/repositories/group.py:62-141 | no group twice, the total is the length, and a line is listed exactly if the user's level there meets the filter, with the role reported elsewhere |
| Server.Store.ListOwned | syncmaster/db/repositories/group.py:64-104 | all owned groups, or none when the filter is above owner |
| Server.Store.ListJoined | syncmaster/db/repositories/group.py:106-138 | all memberships whose role meets the filter |
| Server.Store.GetMemberRole | syncmaster/db/repositories/group.py:203-214 | superuser first, then the stored role, then owner |
| Server.ListedRoleIsTheReportedRole | syncmaster/db/repositories/group.py:203-214 | for a caller with permission, having no row does mean owner, and the listing shows the same role and level |
| Server.Store.DoCreateConnection | syncmaster/server/api/v1/connections.py:107-136 | one new connection with its credentials, or the first error in the order of the checks; `Effects.CreateConnectionDoes` says what is stored |
| Server.Store.DoUpdateConnection | syncmaster/server/api/v1/connections.py:190-235 | a type change is refused while a transfer is linked; missing credentials, secrets that cannot be filled up, and a taken name refuse the update in that order; otherwise row and merged credentials are stored together |
| Server.Store.MergeSecrets | syncmaster/server/api/v1/connections.py:215-223 | the loop over the secret fields takes each secret from the request, or from the stored credentials if they are of the same type |
| Credentials.MergeIsRefusedIff | syncmaster/server/api/v1/connections.py:218-221 | with complete stored credentials an update is refused if and only if it leaves a secret out and changes their type; no stored secret is ever found missing |
| Credentials.MergingKeepsSecrets | syncmaster/server/api/v1/connections.py:218-223 | every secret the request leaves out keeps its stored value, every other one is the request's, and none is missing afterwards |
| Credentials.RequestKeepsComplete | syncmaster/server/api/v1/connections.py:133-136 | in every reachable state stored credentials have all secrets of their type |
| Credentials.OtherRequestsAddNoCredentials | syncmaster/db/repositories/base.py:48-68 | besides creating and updating a connection no request adds or changes credentials |
| Server.Store.DoDeleteConnection | syncmaster/server/api/v1/connections.py:251-276 | refuses while a transfer is linked, otherwise deletes with cascade |
| Server.Store.InsertConnectionCopy | syncmaster/db/repositories/base.py:48-68 | the copy has the origin's type, the new group, the new or old name, and no credentials |
| Server.Store.DoCopyConnection | syncmaster/server/api/v1/connections.py:279-314 | checks in order, copies, and may remove the source with its cascade |
| Server.Store.DoCreateQueue | syncmaster/server/api/v1/queue.py:78-97 | needs the delete permission of the group; a taken slug is refused |
| Server.Store.DoUpdateQueue | syncmaster/server/api/v1/queue.py:100-124 | keeps group and slug of the queue |
| Server.Store.DoDeleteQueue | syncmaster/server/api/v1/queue.py:127-151 | the guard counts only transfers of the queue's own group |
| Server.Store.DoCreateTransfer | syncmaster/server/api/v1/transfers.py:82-139 | the checks on groups and types in their order, then one new row |
| Server.Store.DoUpdateTransfer | syncmaster/server/api/v1/transfers.py:241-320 | checks against the request's group, writes everything but the group |
| Server.Store.DoDeleteTransfer | syncmaster/server/api/v1/transfers.py:324-344 | deletes a transfer and its runs |
| Server.Store.CopyEndpoints | syncmaster/server/api/v1/transfers.py:211-224 | copies the source connection, and the target too unless it is the same one |
| Server.Store.DoCopyTransfer | syncmaster/server/api/v1/transfers.py:161-236 | copies connections and transfer as one unit: a taken name anywhere rolls all of it back |
| Server.Store.DoStartRun | syncmaster/server/api/v1/runs.py:84-121 | permission, then the credentials of source and target, then one new run |
| Server.Store.DoRunOnSchedule | syncmaster/scheduler/transfer_job_manager.py:88-101 | a job whose transfer is gone does nothing; otherwise the same checks of credentials and the same new run, with nobody's permission |
| Permissions.PermissionsByStanding | syncmaster/db/repositories/repository_with_owner.py:16-105 | guests read, developers write connections and transfers, maintainers delete and manage queues, owners manage the group, superusers everything; strangers nothing |
| Permissions.GroupRequestsAreDecided | syncmaster/server/api/v1/groups.py:98-262 | each request on a group is refused exactly to those whose standing is too low and hidden exactly from strangers |
| Permissions.ResourceRequestsAreDecided | syncmaster/server/api/v1/connections.py:107-276 | the same for connections, queues, transfers and run starts |
| Permissions.OtherRequestsAreDecided | syncmaster/server/api/v1/transfers.py:88-97 | only superusers delete groups, and only developers of a group create transfers there |
| Permissions.CopyingNeeds | syncmaster/server/api/v1/transfers.py:161-200 | copying succeeds only with sight of the origin and its connections, the right to delete it if it is to go, and a developer's role in the new group |
| Admission.SucceedsIff | syncmaster/server/api/v1/transfers.py:82-344 | in every valid state each request succeeds if and only if its conditions hold, which are listed without order: standing, rows that exist, names that are free, types and groups that fit |
| Admission.CopyTransferSucceedsIff | syncmaster/server/api/v1/transfers.py:161-236 | among them for copying a transfer: the names of the copied ends free and different |
| Effects.SuccessMeansEffect | syncmaster/server/api/v1/connections.py:107-314 | whatever succeeds has put, changed or removed the rows it names with what the request says, and every unrelated row is as it was |
| Effects.CreateConnectionDoes | syncmaster/server/api/v1/connections.py:123-136 | a new connection has the request's group, name and type and its credentials are stored |
| Effects.UpdateConnectionDoes | syncmaster/server/api/v1/connections.py:225-237 | an update keeps the group and stores name, type and the merge of secrets |
| Effects.DeleteConnectionDoes | syncmaster/server/api/v1/connections.py:267-276 | the connection and its credentials go, and nothing else |
| Effects.CopyConnectionDoes | syncmaster/server/api/v1/connections.py:306-314 | the copy is there; with removal exactly the origin, its credentials, the transfers that use it and their runs go |
| Effects.DeleteGroupDoes | syncmaster/server/api/v1/groups.py:142-152 | with a group go exactly its members, connections, queues, credentials, the transfers that have to do with it, and their runs |
| Effects.DeleteQueueDoes | syncmaster/server/api/v1/queue.py:144-151 | with a queue go exactly the transfers that use it and their runs |
| Effects.CopyTransferDoes | syncmaster/server/api/v1/transfers.py:204-236 | the copy has everything of its origin but group, name and queue, between copies of its connections; with removal exactly the origin and its runs go |
| Effects.DeleteTransferDoes | syncmaster/server/api/v1/transfers.py:335-344 | the transfer and its runs go, and nothing else |
| Reachable.ErrorsRollBack | syncmaster/server/services/unit_of_work.py:55-59 | an endpoint that answers with an error leaves the database as it was |
| Reachable.CascadeKeepsConsistent | syncmaster/db/models/transfer.py:38-61 | deletion with cascades leaves a consistent database in which surviving transfers are unchanged |
| Reachable.DeletionKeepsConsistent | syncmaster/server/api/v1/queue.py:127-151 | each of the four deletions keeps the database consistent |
| Reachable.GroupOpKeepsConsistent | syncmaster/server/api/v1/groups.py:61-262 | each group endpoint keeps the database consistent |
| Reachable.RowOpKeepsConsistent | syncmaster/server/api/v1/connections.py:107-235 | creating and changing connections and queues, and starting runs on request or on schedule, keep the database consistent |
| Reachable.CreateTransferKeepsConsistent | syncmaster/server/api/v1/transfers.py:95-138 | the endpoint's checks are enough for coherence of the new transfer |
| Reachable.UpdateTransferKeepsConsistent | syncmaster/server/api/v1/transfers.py:281-320 | the endpoint's checks are enough for coherence of the changed transfer |
| Reachable.CopyTransferKeepsConsistent | syncmaster/server/api/v1/transfers.py:204-236 | a copy is coherent although the endpoint checks neither types nor the groups of the copied connections |
| Reachable.CopyConnectionKeepsConsistent | syncmaster/server/api/v1/connections.py:306-314 | copying a connection, with or without removal, keeps the database consistent |
| Reachable.CopiedEndpointsAreCoherent | syncmaster/server/api/v1/transfers.py:211-224 | the copied ends of a coherent transfer have the old types and share the new group |
| Reachable.RequestKeepsConsistent | syncmaster/db/repositories/transfer.py:168-182 | every request keeps foreign keys, membership rules and coherence of all transfers |
| Uniqueness.RequestKeepsUnique | syncmaster/db/models/transfer.py:33-36 | no request gives two groups one name, two connections or two transfers of a group one name, or two queues one slug |
| Reachable.RequestKeepsValid | syncmaster/db/repositories/transfer.py:168-182 | every request keeps all invariants of the database together |
| Reachable.EveryHistoryIsValid | syncmaster/server/api/v1/transfers.py:95-138 | in every reachable state each transfer's connections and queue exist and share one group, connection types match the stored params types, the unique constraints hold, and credentials are complete |
| Reachable.ReachableIsValid | syncmaster/schemas/v1/groups.py:24-36 | from an empty database, after any requests, owners have no membership row and stored roles are public |
| Reachable.UpdateKeepsOwnGroupIff | syncmaster/server/api/v1/transfers.py:281-286 | a successful update keeps all transfers in their own group if and only if the request names the transfer's group |
| Reachable.RequestKeepsOwnGroup | syncmaster/db/repositories/transfer.py:168-182 | every other request keeps transfers in their own groups |
| Reachable.OwnGroupAlways | syncmaster/db/repositories/transfer.py:168-182 | over histories without such an update each transfer's own group is that of its connections and queue |
| Reachable.DeleteConnectionDestroysNothing | syncmaster/server/api/v1/connections.py:267-276 | from any valid state deleting a connection refuses, or its cascade reaches no transfer and no run |
| Reachable.DeleteQueueDestroysNothingIff | syncmaster/server/api/v1/queue.py:144-151 | a successful deletion of a queue reaches no transfer and no run if and only if no transfer of another group uses it |
| Reachable.DeleteQueueIsGuarded | syncmaster/server/api/v1/queue.py:144-151 | while transfers are in their own groups the guard is complete |
| Reachable.DriftThenDeleteQueueDestroys | syncmaster/server/api/v1/queue.py:145-151 | after any update that moved the only user of a queue across groups, deleting the queue succeeds and takes the transfer and its runs |
| Reachable.MovingConnectionDestroysNothingIff | syncmaster/server/api/v1/connections.py:306-314 | copying with removal spares all transfers and runs if and only if none is linked to the source |
| Reachable.HandoverLosesNobody | syncmaster/server/api/v1/groups.py:115-138 | handing over never meets a duplicate membership; owner and members afterwards are those before plus the new owner, the previous owner is a guest, and nobody else's role changes |
| Copies.CopiedConnectionHasNone | syncmaster/server/api/v1/connections.py:306-314 | a copied connection is there and has no credentials |
| Copies.CopiedTransferHasNone | syncmaster/server/api/v1/transfers.py:210-236 | a copied transfer is there, and neither of its connections has credentials |
| Copies.WithoutCopiesEverythingStarts | syncmaster/server/api/v1/connections.py:133-136 | from an empty database, after any requests but copies, every connection has complete credentials and every transfer starts, on schedule and for whoever may write it |
| Copies.RunStartsIff | syncmaster/server/api/v1/runs.py:97-113 | with permission to write, a run starts if and only if both connections have credentials, otherwise nothing changes; the scheduler's job has the very same outcome |
| Copies.StuckWithout | syncmaster/server/api/v1/connections.py:215-215 | without credentials nobody updates the connection, and no transfer that uses it starts, on request or on schedule |
| Copies.ConnectionWithoutCredentialsIsStuck | syncmaster/server/api/v1/connections.py:208-237 | a connection without credentials stays so through every history of requests and jobs: no update of it and no start of a transfer that uses it ever succeeds |
| Copies.NeverStarts | syncmaster/server/api/v1/runs.py:106-113 | a transfer that uses a connection without credentials never starts, on request or on schedule, in any history in which no update points it away from all such connections |
| Copies.FreshCopyNeverStarts | syncmaster/server/api/v1/transfers.py:210-236 | a fresh copy never starts, on schedule or whoever asks, until an update points it away from both copied connections |
| Search.WordsWithSupportedPunctuation | syncmaster/db/repositories/search.py:79-87 | returns the words split at unsupported punctuation, without those made of punctuation alone |
| Search.KeepWords | syncmaster/db/repositories/search.py:82-87 | the loop keeps exactly the parts with some other character, in order |
| Search.BlankThenSplit | syncmaster/db/repositories/search.py:11-13 | translating characters to spaces and splitting is splitting on both classes |
| Splitting.FineSplitRefinesCoarse | syncmaster/db/repositories/search.py:79-92 | for any two break classes, splitting finer is splitting coarser and then each word again |
| Splitting.FineSplitOfWord | syncmaster/db/repositories/search.py:84-86 | a word vanishes under the finer split exactly if it is all breaks, and stays whole if it has none |
| Splitting.SplitOfJoined | syncmaster/db/repositories/search.py:83-83 | words joined by spaces are split into those very words |
| Splitting.WordsHoldTheLetters | syncmaster/db/repositories/search.py:92-92 | the words hold all characters that are no breaks, once and in order |
| Search.FineIsResplit | syncmaster/db/repositories/search.py:79-92 | the same from the kept words only: dropped parts contribute nothing |
| Search.EqualIffPlain | syncmaster/db/repositories/search.py:62-62 | the comparison of the two lists is true exactly if no kept word has punctuation |
| Search.SplittersAgree | syncmaster/db/repositories/search.py:79-92 | for every query the fully split words are the kept words split again, each contributes, the lists are equal exactly if no kept word has punctuation, and one is empty exactly if the other is |
| Search.PunctuationIs | syncmaster/db/repositories/search.py:10-13 | the classes are the 32 ASCII signs, and those without `/`, `.`, `_` and `-` |
| Search.PathsStayWhole | syncmaster/db/repositories/search.py:10-13 | a path, URL or host name stays one word |
| Search.QueryRoundTrip | syncmaster/db/repositories/search.py:55-76 | a reader of quoted words, prefix marks, conjunctions, alternatives and parentheses reads the built query back as the exact words, the prefixes and, only if different, the split prefixes; it is empty exactly if there are no words |
| Search.QueryForPath | syncmaster/db/repositories/search.py:55-76 | the query text for a path or a plain word: the whole, the whole as a prefix, and, if it has signs, its pieces as prefixes |
| Filters.CollectRowFilters | syncmaster/worker/handlers/db/base.py:109-115 | all row filters of all transformations, in order, and nothing of other transformations; `CollectedMeansAll` and `NoFilterIsLost` say what that is |
| Filters.CollectedMeansAll | syncmaster/worker/handlers/db/base.py:109-115 | a row passes the collected filters if and only if it passes each filter of each row-filter transformation |
| Filters.NoFilterIsLost | syncmaster/worker/handlers/db/base.py:109-115 | as many filters are collected as the transformations have together |
| Filters.MakeRowsFilterExpression | syncmaster/worker/handlers/db/hive.py:51-69 | the loop's text for each dialect, and None exactly if there are no filters |
| Filters.AllVerdictsTrueIff | syncmaster/worker/handlers/db/postgres.py:64-64 | the conjunction is true exactly if every filter is true of the row |
| Sql.LowerCaseMatches | syncmaster/worker/handlers/db/mysql.py:66-69 | matching lower-case forms with LIKE is matching without regard to case, for every text and pattern |
| Sql.QuotedReadsBackIff | syncmaster/worker/handlers/db/base.py:160-161 | a text put between quotes reads back as itself if and only if the quote is not in it |
| Sql.PercentMatchesAnyText | syncmaster/worker/handlers/db/base.py:40-43 | LIKE: `%` stands for any text |
| Sql.PlainPatternMatchesItself | syncmaster/worker/handlers/db/base.py:40-43 | LIKE: a pattern without wildcards matches itself and nothing else |
| FilterMeaning.LexWhere | syncmaster/worker/handlers/db/oracle.py:56-76 | the text of a filter list is read as the intended tokens if and only if no name or value contains the quote around it; SQL words inside values do no harm |
| FilterMeaning.ReadConditionTokens | syncmaster/worker/handlers/db/oracle.py:56-76 | under SQL precedence, `NOT LOWER(..) LIKE ..` negates the whole LIKE and AND joins whole filters |
| FilterMeaning.LoweredLikeIsILike | syncmaster/worker/handlers/db/mysql.py:66-69 | the LOWER/LIKE form and ILIKE have the same three-valued result on every row |
| FilterMeaning.FilterMeansVerdict | syncmaster/worker/handlers/db/base.py:31-44 | each operator of the table gives the verdict its name promises, unknown for NULL |
| FilterMeaning.WhereReadsBackIff | syncmaster/worker/handlers/db/oracle.py:56-76 | the text is read back as the expression it was written from if and only if no name or value contains the quote around it, for every list of filters and every dialect |
| FilterMeaning.ValueReadsAsTwoFilters | syncmaster/worker/handlers/db/postgres.py:55-64 | in every dialect, one filter whose value continues with an apostrophe, AND and another comparison is read as two filters |
| FilterMeaning.WhereMeansAllFilters | syncmaster/worker/handlers/db/oracle.py:56-76 | read as SQL, the expression of every dialect evaluates to the conjunction of all filters, for values and fields free of their quote |
| FilterMeaning.WhereMeansTransformations | syncmaster/worker/handlers/db/base.py:109-115 | from transformations to rows: without filters there is no expression and all rows pass; otherwise the text is true of exactly the rows that pass every filter of every transformation |
| FilterMeaning.DialectsAgree | syncmaster/worker/handlers/db/postgres.py:55-64 | all dialects keep the same rows, those for which every filter holds, for values and fields free of the quotes of both |
| CodeBodies.CollectBody | mddocs/scripts/rst2md.py:184-206 | takes the lines that belong to a code body, moved left, without empty lines at the end |
| CodeBodies.BodyShowsAll | mddocs/scripts/rst2md.py:195-210 | collecting, trimming and indenting a body keeps every visible text in order |
| CodeBodies.CodeKeepsItsLayout | mddocs/scripts/rst2md.py:199-210 | every visible code line moves by the same distance, whatever its own depth |
| CodeBlocks.SkipHead | mddocs/scripts/rst2md.py:172-182 | passes all options, keeps the last caption as title, and one blank line |
| CodeBlocks.ConvertBlock | mddocs/scripts/rst2md.py:168-211 | one directive becomes one fenced block, and the pass goes on behind its body |
| CodeBlocks.BlockIsFenced | mddocs/scripts/rst2md.py:205-211 | the block stands between fences at the directive's depth, and the opening one reads back as language and title |
| CodeBlocks.TitleIsTheLastCaption | mddocs/scripts/rst2md.py:172-178 | the title is the caption of the last option that has one |
| CodeBlocks.InfoReadsBack | mddocs/scripts/rst2md.py:207-209 | a reader of the fence finds the directive's language and the title |
| CodeBlocks.ConvertCodeBlocks | mddocs/scripts/rst2md.py:154-214 | the nested loops give the converted text and one change per directive |
| CodeBlocks.UnchangedIffNoCode | mddocs/scripts/rst2md.py:160-166 | no change is reported exactly for texts without a code directive, which come out unchanged |
| CodeBlocks.PayloadIsShown | mddocs/scripts/rst2md.py:160-211 | all visible lines but converted directives and the options in their heads come out with their text, in order, body lines that look like options or directives included |
| CodeBlocks.PayloadHasTheRest | mddocs/scripts/rst2md.py:168-182 | what counts as dropped are only lines that are recognised as directives or options |
| CodeBlocks.NoCodeIsLost | mddocs/scripts/rst2md.py:154-214 | every visible line that is recognised neither as directive nor as option comes out, in order |
| Tabs.SkipBlank | mddocs/scripts/rst2md.py:251-252 | passes the directive and at most one blank line |
| Tabs.ConvertCodeTab | mddocs/scripts/rst2md.py:250-278 | the body of a code tab becomes a fenced block four deeper than the tab |
| Tabs.ConvertLine | mddocs/scripts/rst2md.py:229-291 | one turn of the loop appends, reports and skips what one line asks for |
| Tabs.ConvertTabs | mddocs/scripts/rst2md.py:222-293 | the loop with its remembered wrapper indent gives the converted text and one change per directive |
| Tabs.UnchangedIffNoTabs | mddocs/scripts/rst2md.py:290-293 | no change is reported exactly for texts without a tab directive, which come out unchanged |
| Tabs.PayloadIsShown | mddocs/scripts/rst2md.py:229-291 | all visible lines but converted directives come out with their text, in order, body lines that look like directives included |
| Tabs.PayloadHasTheRest | mddocs/scripts/rst2md.py:233-289 | what counts as dropped are only lines that are recognised as tab directives |
| Tabs.NoTextIsLost | mddocs/scripts/rst2md.py:222-293 | every visible line that is not recognised as a tab directive comes out, in order |
| Tabs.TabOwnsTheSameIff | mddocs/scripts/rst2md.py:280-288 | with its lines at least four deeper than the tab, a plain tab owns the same lines in Markdown as in the source if and only if nothing follows or the next line is less than four deeper than the moved header |
| Tabs.TabAlwaysOwnsTheSameIff | mddocs/scripts/rst2md.py:284-285 | whatever lines follow, the tab owns the same ones, if and only if its wrapper stands exactly three deep |
| Tabs.ParagraphBehindTabsIsSwallowed | mddocs/scripts/rst2md.py:229-285 | under every wrapper eight deep or more, a paragraph behind usual tabs, as deep as the wrapper, belongs to the last tab in Markdown and to none in the source |
| TabTrees.ItemsAreShown | mddocs/scripts/rst2md.py:222-293 | the converted text shows exactly the headers, lines and code that the Markdown outline is read from, each at its depth and with its text |
| TabTrees.ItemsSplit | mddocs/scripts/rst2md.py:256-274 | a text that no code reaches across is converted in two parts that share only the remembered wrapper indent |
| TabTrees.TabPreservedIff | mddocs/scripts/rst2md.py:248-288 | one tab and what follows it read alike in both notations if and only if the tab holds together, its own lines read alike, and so do those behind it |
| TabTrees.TreePreservedIffTidy | mddocs/scripts/rst2md.py:222-293 | with any number of wrappers, nested tabs and code tabs, which visible lines belong to which tab is the same in reStructuredText and Markdown if and only if for every tab all that is written for it is four deeper than its header and what is written next is not |
| Doctests.ConvertDoctests | mddocs/scripts/rst2md.py:463-501 | the nested loops give the converted text and one change per wrapped block |
| Doctests.CollectBlock | mddocs/scripts/rst2md.py:487-491 | takes all lines up to the first blank one |
| Doctests.FencesStandAtPrompt | mddocs/scripts/rst2md.py:486-494 | the fences stand as deep as the prompt, and the first one says Python |
| Doctests.ReaderSees | mddocs/scripts/rst2md.py:471-496 | a reader of fences sees the result well fenced exactly if it starts in the pass's state and every block is balanced |
| Doctests.FencingWorksIffBalanced | mddocs/scripts/rst2md.py:463-501 | every prompt is fenced and the rest is read as before if and only if every wrapped block is balanced |
| Doctests.FenceFreeBlocksAreFenced | mddocs/scripts/rst2md.py:463-467 | blocks without fence lines: every prompt ends inside a fence and the state at the end is unchanged |
| Doctests.UnchangedIffFenced | mddocs/scripts/rst2md.py:484-485 | no change is reported exactly if all prompts were fenced, and then the text is unchanged |
| Doctests.IdempotentIff | mddocs/scripts/rst2md.py:463-501 | a second pass changes and reports nothing if and only if, block by block of the input, every prompt reads as fenced after the first one |
| Doctests.Idempotent | mddocs/scripts/rst2md.py:463-501 | balanced blocks are enough for that |
| Doctests.UnbalancedYetIdempotent | mddocs/scripts/rst2md.py:484-496 | and not necessary: a fence line alone under a prompt |
| Doctests.PromptBehindFenceIsLost | mddocs/scripts/rst2md.py:486-496 | an unbalanced input: a prompt behind a fence line of its own block ends up outside every fence |
| Doctests.NothingIsLost | mddocs/scripts/rst2md.py:486-496 | the input is a subsequence of the output, two lines longer per block |
| Admonitions.CollectAdmonitionBody | mddocs/scripts/rst2md.py:311-356 | takes exactly the blank or deeper lines and normalises them |
| Admonitions.Normalise | mddocs/scripts/rst2md.py:334-356 | the two loops compute the least indentation and move every visible line by the same distance |
| Admonitions.NormalisingKeepsShape | mddocs/scripts/rst2md.py:346-354 | line count, texts, blank lines and relative depth are kept |
| Admonitions.NormalisingIsIdempotent | mddocs/scripts/rst2md.py:321-356 | the shallowest visible line ends at directive indent plus four, and normalising again changes nothing |
| Admonitions.ConvertAdmonitions | mddocs/scripts/rst2md.py:359-455 | the recursion ends, gives the converted text and one change per directive |
| Admonitions.ConvertDirective | mddocs/scripts/rst2md.py:394-398 | one directive with its body, converted in turn |
| AdmonitionHeaders.HeaderReadsAsMeant | mddocs/scripts/rst2md.py:300-445 | every header line that is written reads as the admonition that the directive asks for: folded or not, its type, its title |
| Admonitions.ConversionIsLinewise | mddocs/scripts/rst2md.py:359-455 | but for indentation the result is every line replaced on its own: nested directives at any depth are converted, and nothing is lost or reordered |
| Admonitions.UnchangedIffNoDirectives | mddocs/scripts/rst2md.py:451-455 | no changes are reported exactly for texts without directives, which come out unchanged |
| Admonitions.SecondConversionChangesNothingIff | mddocs/scripts/rst2md.py:367-375 | converting twice is converting once if and only if no inline text is itself a directive |
| AdmonitionTrees.ConversionKeepsDepth | mddocs/scripts/rst2md.py:359-455 | all lines of the result are at least so deep exactly if all lines of the text are |
| AdmonitionTrees.ConversionSplits | mddocs/scripts/rst2md.py:325-332 | a text that no open directive can reach across is converted in two independent parts |
| AdmonitionTrees.TreePreservedIffTidy | mddocs/scripts/rst2md.py:367-449 | for texts without Markdown headers, which lines belong to which admonition is the same in reStructuredText and Markdown if and only if no inline directive has lines under it that are deeper by less than four |
| Docstrings.JoinOfSplit | mddocs/scripts/rst2md.py:514-523 | splitting a text into lines and joining them gives the text back |
| Docstrings.ConvertDocstring | mddocs/scripts/rst2md.py:509-529 | an empty change list means an unchanged text, and it is empty if and only if no line is a code or tab directive, the other passes report nothing, and every prompt is fenced already |
| CodeThenDoctests.PromptsFencedIff | mddocs/scripts/rst2md.py:463-501 | every prompt is fenced after the doctest pass if and only if, reading the input line by line in five states, no prompt is met in an exposed block or after the reader is lost |
| CodeThenDoctests.BothPassesFenceIff | mddocs/scripts/rst2md.py:515-522 | for every docstring, with or without fences of its own: both passes leave all prompts fenced if and only if its own lines say so, each directive counting as two fences around its trimmed code |
| CodeThenDoctests.FenceFreeDocstringIff | mddocs/scripts/rst2md.py:515-522 | for docstrings without fences: if and only if no directive inside a block of prompts has a prompt in its code, and behind one whose code has a blank line no prompt follows |
| CodeThenDoctests.PromptAboveCodeIsLost | mddocs/scripts/rst2md.py:515-522 | a code directive directly under a prompt makes the last pass leave a prompt of the code outside every fence |
| Splice.ProcessDocstrings | mddocs/scripts/rst2md.py:601-625 | for sorted disjoint spans the offset-tracking loop yields the untouched gaps interleaved with the rewritten literals, skipped ones included |
| Splice.SpliceOne | mddocs/scripts/rst2md.py:605-625 | one turn keeps the rewritten front, the drifted offset and the untouched rest aligned |
| Splice.NoChangesNoRewrite | mddocs/scripts/rst2md.py:617-618 | no reported change, no change of the file |
| Splice.RewritingKeepsQuotes | mddocs/scripts/rst2md.py:608-620 | a rewritten literal keeps prefix and quotes and holds exactly the new body |
| Dedent.SkipBlanks | mddocs/scripts/fix_refs.py:281-283 | finds the next visible line or the end |
| Dedent.CollectSection | mddocs/scripts/fix_refs.py:293-306 | copies the section up to its end, moves what starts with the superfluous spaces, and says whether anything did |
| Dedent.FixSection | mddocs/scripts/fix_refs.py:284-309 | one section, moved or copied, with the report that explains it |
| Dedent.FixNumpyParams | mddocs/scripts/fix_refs.py:268-312 | the output is the input with exactly the reported blocks moved left; the reports are the deep sections with something to move, none is missed outside earlier ones |
| Dedent.CollectList | mddocs/scripts/fix_refs.py:352-377 | the block reaches exactly as far as the list goes on across blank lines |
| Dedent.FixList | mddocs/scripts/fix_refs.py:347-387 | one list under its label, moved as a block |
| Dedent.FixOverIndentedLists | mddocs/scripts/fix_refs.py:325-391 | the output is the input with exactly the reported lists moved left; every deep list under a label is reported or lies inside an earlier one |
| DedentExtents.SectionExtent | mddocs/scripts/fix_refs.py:293-306 | a moved section takes the lines deeper than its header, and rules of dashes, up to the first other visible line |
| DedentExtents.ListExtent | mddocs/scripts/fix_refs.py:352-377 | a moved list takes lines as deep as its first item, up to a shallower one, or to blank lines behind which no item follows |
| Dedent.DedentingIsLossless | mddocs/scripts/fix_refs.py:249-391 | both passes keep number, order and text of lines, and the first line of a moved block, if it begins with the spaces that are taken off, ends up as deep as its label |
| Dedent.BlocksMoveAsAWhole | mddocs/scripts/fix_refs.py:380-380 | two moved lines of a block keep their relative depth |
| Dedent.NothingReportedNothingChanged | mddocs/scripts/fix_refs.py:307-308 | an empty report means an unchanged text |
| FileNames.ParseReadsText | syncmaster/schemas/v1/transfers/file/base.py:93-94 | every list of pieces has a template text that is read back as it |
| FileNames.UnparseOfParse | syncmaster/schemas/v1/transfers/file/base.py:93-94 | a readable template text is the text of its reading, so the reading is unique |
| FileNames.MentionedPlaceholderIsRead | syncmaster/schemas/v1/transfers/file/base.py:80-81 | a placeholder found in the text is in the reading unless an opening brace is doubled |
| FileNames.AcceptedTemplateHasItsPlaceholders | syncmaster/schemas/v1/transfers/file/base.py:72-99 | every accepted template without doubled opening braces has index, extension and a run placeholder |
| FileNames.AcceptedIff | syncmaster/schemas/v1/transfers/file/base.py:72-99 | without doubled opening braces a template is accepted if and only if its characters are allowed, it can be read, and its reading has index, extension and a run placeholder |
| FileNames.DoubledBracesHideTheIndex | syncmaster/schemas/v1/transfers/file/base.py:80-90 | any template without an index is accepted behind `{{index}}`, and then all names are equal |
| FileNames.NamesAreDistinctIff | syncmaster/worker/handlers/file/base.py:67-73 | different indices give different names if and only if the index is in the reading, repeated or next to digits or not |
| FileNames.NameFixesFile | syncmaster/worker/handlers/file/base.py:67-73 | within one run, and across runs for templates without the run identifier, equal names mean the same index and the same shown creation time, with no condition on separators |
| RunNames.RunIsFixed | syncmaster/worker/handlers/file/base.py:67-73 | equal names of two runs show the same digits between any two pieces that are not digits |
| RunNames.NameFixesFileAndRun | syncmaster/schemas/v1/transfers/file/base.py:88-90 | equal names mean the same file of the same run whenever one kind of numeral is missing or two stretches between breaks do not show the numerals in one proportion, however often placeholders are repeated and whatever digits stand between them |
| RunNames.TogetherFixesIff | syncmaster/schemas/v1/transfers/file/base.py:88-90 | for templates with both numerals, repeated at will but with no digits between those of one stretch: names belong to one file of one run if and only if two stretches do not show the numerals in one proportion |
| RunNames.OneOfEachFixesIff | syncmaster/schemas/v1/transfers/file/base.py:88-90 | with one index and one run identifier, names belong to one file of one run if and only if some piece between the two is not a digit |
| RunNames.OnlyDigitsBetweenCollide | syncmaster/worker/handlers/file/base.py:67-73 | with only digits between the two, for every extension and creation time, two files of two runs share a name |
| RunNames.AdjacentNumeralsCollide | syncmaster/worker/handlers/file/base.py:67-73 | file 11 of run 1 and file 1 of run 11 share a name when run and index stand side by side |
| Extensions.ExtensionsStartWithoutDigit | syncmaster/worker/handlers/file/base.py:75-94 | every extension starts with a character that is no digit |
| Extensions.ExtensionReadsBack | syncmaster/worker/handlers/file/base.py:75-94 | an extension tells the format and the compression it was made for |
| Renaming.RenamedSize | syncmaster/worker/handlers/file/local_df.py:103-103 | one rename loses a file exactly if the new name belongs to another file |
| Renaming.RenamingArrives | syncmaster/worker/handlers/file/local_df.py:96-103 | without conflicts the directory holds exactly the new names, each with its own file's contents |
| Renaming.RenamingLosesNothingIff | syncmaster/worker/handlers/file/local_df.py:96-103 | the loop keeps all files if and only if no new name is given twice or still belongs to a later file |
| Renaming.EverythingIsDeliveredIff | syncmaster/worker/handlers/file/remote_df.py:50-71 | every file reaches the target if and only if no name conflicts, all names are selected, and none is taken there |
| Renaming.DeliveredWithContents | syncmaster/worker/handlers/file/remote_df.py:50-71 | what is wanted and free arrives with its own contents, and what was at the target stays |
| FileDelivery.NoConflictIff | syncmaster/worker/handlers/file/base.py:58-65 | with an index in the template only old names still waiting under a new name matter |
| FileDelivery.AcceptedTemplateKeepsEveryFile | syncmaster/worker/handlers/file/base.py:58-73 | for every accepted template without doubled braces, old names disjoint from the new ones, every file is kept under its new name |
| FileDelivery.Directory.Rename | syncmaster/worker/handlers/file/local_df.py:103-103 | moves one file and replaces what had the new name |
| FileDelivery.Directory.RenameFiles | syncmaster/worker/handlers/file/base.py:58-65 | the loop over the listing never looks for a file that is gone, and renames one after the other |
| FileDelivery.Directory.MoveHere | syncmaster/worker/handlers/file/remote_df.py:62-70 | one by one, exactly the matching files whose names are free here leave the source and arrive with their contents; nothing here is overwritten |
| FileDelivery.Directory.WriteRemote | syncmaster/worker/handlers/file/remote_df.py:50-71 | what matches after renaming is at the target, and the temporary directory is gone |
| FileDelivery.DotExtensionIsSelected | syncmaster/worker/handlers/file/remote_df.py:67-67 | a template that ends in `.{extension}` has every name selected |
| FileDelivery.OtherTemplatesLeaveFilesBehind | syncmaster/worker/handlers/file/remote_df.py:60-71 | any other template leaves every file of every run behind for one of two target formats, which the template alone determines |
| FileDelivery.MoverSuitsEveryFormatIff | syncmaster/worker/handlers/file/remote_df.py:60-69 | names are selected for all formats and compressions if and only if the template ends in `.{extension}` |
| Pages.Pagination.constructor | syncmaster/db/utils.py:10-24 | the fields of a page from items, page, page size and total |
| Pages.Paginate | syncmaster/db/repositories/base.py:86-110 | any page of any listing, past the end too: its items, and a next page exactly if page is less than pages |
| Pages.PageCountIs | syncmaster/db/utils.py:24-24 | the page count is the one number that holds all items with no empty page but a first one |
| Pages.HasNextIff | syncmaster/db/utils.py:20-23 | there is a next page exactly before the last one |
| Pages.WalkMeetsEveryRowOnce | syncmaster/db/repositories/group.py:143-152 | following `next_page` from page 1 ends after exactly `pages` pages and gives the whole list, nothing repeated or missed; pages past the end are empty and lead nowhere |

## Left out

- Spark, onETL, Celery, APScheduler and SQLAlchemy themselves: only the contracts listed above.
- Authentication, encryption of credentials, sessions, middlewares, settings, migrations.
- Validity and firing times of cron schedules, and the misfire grace time of jobs.
- Interleavings inside one endpoint, such as a stop request that reads a stale row, and two runs of one transfer at the same time.
- Changes of a transfer's parameters between runs, transformations, and file targets in the high-water-mark theorem; file targets are never switched to append.
- Ordering by name and search in the group listing; users are neither deleted nor deactivated.
- The log URL, the transfer dump and the type of a run.
- `regexp` row filters, which the dialects define differently, and MSSQL, Clickhouse and Iceberg expressions.
- Backslash as an escape in LIKE patterns and MySQL texts, and lower-case forms of another length.
- The regular expressions that recognise directives, prompts and docstrings, and the lower case of an inline kind: a line is its indent, kind and text, and the conversion inside a docstring is a parameter of the splice.
- The inline substitutions, and the second pass over single-line docstrings.
- NameFixesFileAndRun: one way only where a placeholder is repeated and digits stand between the numerals of one stretch; whether such a template can collide although all its stretches have one proportion is a word equation.
- WhereMeansAllFilters: for names and values free of the quote around them; the others are read as something else (`WhereReadsBackIff`).
- DialectsAgree: the same.
- TreePreservedIffTidy: for tabs as for admonitions, texts that already have Markdown headers, which the two notations would read differently.
- ConvertDocstring: the admonition and inline passes are parameters that report what they change, because lines of the admonition pass are classified; `UnchangedIffNoDirectives` proves that of the former.
- FixOverIndentedLists: idempotence, because a label inside a moved list is only reached by a second run.
- Placeholders with attributes, such as `{index.upper}`: the validator accepts some of them and naming the files then fails; the model rejects all.
- The local write's removal of `.crc` files and its upload, and failures in the middle of the remote write, after which the temporary directory is removed as well.
- Rounding of the division in the page count for totals beyond the exact range of a float.
