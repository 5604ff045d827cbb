# Verified model of the patch engine, the desktop worker and the agent runtime

This project models, in Dafny 4.11, the parts of the repository whose guarantees only appear across several functions or
over a whole run:

- the reviewable patch engine: hunks of a diff (`EditScripts`, `HunkContext`, `Hunks`, `HunkReview`), pending patches
  (`PatchPayload`, `PatchReading`, `SafeNames`, `PatchSelection`), the files they are applied to and rolled back on
  (`Workspace`, `WorkspaceFiles`, `WorkspaceEffects`, `WorkspaceUndo`, `WorkspaceFailures`, `WorkspaceRuns`), previews and
  conflicts (`WorkspacePreviews`), the code session that joins them (`CodeSessions`, `ApplyOutcomes`), what its runs keep
  (`SessionRuns`), when they can overwrite a change unnoticed (`SharedIds`, `ShownEntries`, `LostUpdates`, `MissedUpdates`,
  `MissedByFileItems`, `MissedByHunks`, `GuardNeeded`), the automatic apply (`AutoApply`, `SafeApplies`) and the names given
  by a project merge (`MergeNames`, `CopyPaths`);
- the desktop side: the worker coordinator with its journal (`Coordinator`, `PollRoom`, `RequestOrder`, `RecoveryNotes`) and
  the patch tools (`ToolRegistry`, `ToolGuards`);
- the backend's state machines: agent jobs (`AgentJobs`, `JobControl`), missions with their task graphs and idempotency keys
  (`TaskGraph`, `Missions`, `MissionStory`, `MissionKeys`, `MissionPlans`) and the autonomous cycle (`Autonomy`,
  `ApprovalGate`).

`Strings`, `Decimal`, `Sublists` and `Wrappers` hold what these share. `dafny verify dfyconfig.toml` checks everything.

## How the source is rendered

Code that changes objects step by step is a class (or a method with loops) whose methods are proved equal to a
specification function on values; the theorems about whole runs are lemmas about those functions. Backend functions are
atomic steps up to their commits: a refused apply keeps the preview it had committed and the objects it had written. In
the coordinator the code between two awaits is one step, the reads of a journal write and the replacement of the file
take effect in steps of their own, the steps of all slots interleave freely, and a crash may come anywhere.

A file's text is not its stored object: it is what `get_file_text` makes of it (backend/services/agent/file_service.py,
lines 176-195 and 420-436), which reformats JSON, joins CSV cells and extracts text from documents. The reader is any
partial function of the file's name and object, so every result about undoing says what that function has to do.

Standing conventions: texts are sequences of lines (the joined text of the source has no trailing newline); SHA-256 is an
injective constructor; new ids come from a counter; the matcher behind a diff is any function that returns a valid edit
script, so the results hold for every diff algorithm; what the database, the language model, the clock or the user
decides is a parameter. A missing text field of a patch operation is the empty string, as the source's truth tests treat
the two alike. The header ranges follow the POSIX `diff` utility, "Diff -u or -U Output Format": a length of one is
omitted, an empty range names the preceding line.

## Where the code falls short of what one would expect

Each of these is proved, with the exact condition under which the expectation holds.

- Lines that start with `++` are lost when they are inserted: the parser takes the rendered `+++` for a file header
  (`AcceptAllIsExact`, `PlusPlusIsLost`).
- A name cut at 500 characters right behind `/..` is handed out as safe and refused when it is normalised again
  (`SafeAgain`, `CutNameIsRefusedLater`).
- Apply and rollback give a modified, deleted or renamed file back exactly as it was if and only if reading its object
  gives the object itself; a `package.json` kept on one line comes back indented, with another checksum and size
  (`ApplyThenRollback`, `UndoStack`, `JsonIsNotRestored`).
- With several operations on one file the rollback leaves the last text that was read from it and the name it had before
  its last renaming (`AnyPatchRollsBack`, `AnyPatchRestoresIff`, `TwoEditsRollBackToFirst`, `TwoRenamesRollBackToSecond`).
- Rolling back a folder operation removes the folder even if it existed before (`FoldersRestored`).
- The undo stack holds eleven snapshots: a twelfth rollback in a row is refused (`TwelfthUndoIsRefused`).
- A failed apply discards the record changes but not the objects that operations before the first one that could be seen to
  fail have written (`FailedApply`, `StopsAtFirstRefused`).
- A patch whose hunks were partly applied conflicts with its own remainder exactly when that part changed the object
  (`PartialApplyConflicts`).
- The automatic apply takes exactly the operations it classified as safe only if their ids decide, every target exists
  and can be read, every name is acceptable and no conflicting operation shares a file with one of them
  (`AppliesSafeIff`, `AppliesSafeIffAppliable`, and in terms of the files before the call `AppliesSafeIffForeseen`). When the only safe operations have blank ids it selects nothing and so
  applies the whole patch, deletions included (`BlankIdsApplyEverything`).
- A file item of a patch without operations is rejected by the id it is shown with if and only if that id is its own
  operation id (`ShownIdRejects`); a blank one drops the whole patch (`RejectByShownId`). An item that stays keeps the id
  it is shown with if and only if the id is its own or no earlier item was taken (`ShownIdStays`).
- An apply that does not allow conflicts never overwrites a text that changed since the operation was first shown if and
  only if the patch is guarded (`GuardDecides`): file items that name a file have an operation id of their own, and whatever
  follows an operation on a file under the same id and can have a preview entry, but none of that file, is followed by
  another operation on the file that no selection of hunks takes away alone. One file per id is enough, distinct ids are (`OneFilePerIdIsShielded`,
  `UniqueIsShielded`); a folder after the operation, say, is already too much (`FolderHidesFile`). For every patch that is
  not guarded there is a run that ends in such an apply (`GuardIsNeeded`); where only hunks can separate the operations,
  provided they can all be applied and the matcher tells their texts apart.
- A new patch is previewed against what the old preview says under its ids. Its applies are refused exactly for what has
  changed since its generation if and only if no such entry has a base other than the checksum its file has
  (`StaleEntriesDecide`).
- A mission is created a second time with the same idempotency key if and only if 250 or more missions have been created
  since the key was used last (`OnePerKeyIff`, `RepeatedRequestIff`).
- A hunk whose operation has the id `a-b` also selects an operation `a` (`ForeignHunk`).
- A cancellation can be outrun: a claimed job that is to be cancelled and is swept after its last retry becomes a dead
  letter, and its execution starts all the same (`DeadLetterStarts`; `RevivedIff` has every such step).
- Without a verification the mission report waits for the approval gate only, not for the changes (`BuildTasks`).
- With two executions of one job under way, the retry count has no bound (`TwoExecutionsUnbounded`); a job requeued by
  the sweep is stale again at once, because its age counts from its creation (`SweepDrains`).
- Every live slot keeps its journal entry in every run in which no poll starts an assignment that an earlier slot is
  still cleaning up (`LiveSlotsKeepEntries`, and for every acceptance `OpenAcceptancesKeepEntries`); wherever one has, some continuation leaves a live slot without its entry
  (`RestartLosesEntry`, `EntriesStayIff`), and such a run begins at the very start whenever there is room for one
  assignment (`ReofferLosesEntry`).

## Model

| member | source | states |
|---|---|---|
| `Hunks.HeaderRoundTrip` | backend/services/agent/code_workspace.py:3143-3148 | The header of every group of edits is read back with the same four numbers, one-line and empty ranges included. |
| `Hunks.ParseDiffToHunks` | backend/services/agent/code_workspace.py:3135-3181 | The loop returns the hunks of the parse specification, for any lines whatever. |
| `HunkReview.ParsedDiff` | backend/services/agent/code_workspace.py:3129-3181 | Parsing the rendered diff of any edit script gives one hunk per group, numbered in order, ranges intact, minus the lines that look like file headers. |
| `Hunks.ApplyHunksToFile` | backend/services/agent/code_workspace.py:3184-3201 | The splice loop with its running offset gives the base lines with exactly the accepted ranges replaced, whenever the hunks lie in order. |
| `Hunks.SpliceIsReplacement` | backend/services/agent/code_workspace.py:3188-3201 | The offset arithmetic agrees with a reference that uses base coordinates only, including line 0 of an empty file. |
| `Hunks.OrderIrrelevant` | backend/services/agent/code_workspace.py:3186 | Listing the same hunks in another order gives the same text. |
| `HunkReview.ReviewedText` | backend/services/agent/code_workspace.py:3127-3201 | For every edit script, every set of rejected hunks and every listing order, diff, parse and splice give the old lines with exactly the accepted hunks merged in. |
| `HunkReview.RejectAll` | backend/services/agent/code_workspace.py:3189-3191 | Rejecting every hunk gives the old lines back. |
| `HunkReview.AcceptAllIsExact` | backend/services/agent/code_workspace.py:3139-3201 | Accepting all hunks merges to the new lines if and only if no inserted line starts with `++`. |
| `HunkReview.AcceptAllReproducesNew` | backend/services/agent/code_workspace.py:3139-3201 | The same for the splice loop itself, with the hunks listed in any order. |
| `HunkReview.PlusPlusIsLost` | backend/services/agent/code_workspace.py:3140-3141 | A file that gains the one line `++x` comes out empty. |
| `HunkContext.ShownIff` | backend/services/agent/code_workspace.py:3129 | A line is shown by some hunk if and only if it is changed or has a change at most three lines away. |
| `HunkContext.TogetherIff` | backend/services/agent/code_workspace.py:3129 | Two changes share a hunk if and only if nowhere between them seven lines in a row are kept. |
| `HunkContext.SpanIsGroup` | backend/services/agent/code_workspace.py:3129-3133 | The lines of each hunk are those of its place in the script. |
| `MergeNames.CopyNameInjective` | backend/services/agent/code_workspace.py:473-482 | Different copy numbers give different names. |
| `MergeNames.UniqueMergedFilename` | backend/services/agent/code_workspace.py:466-482 | Ends within one more try than there are used names, returns the candidate if it is free and the first free copy otherwise, and adds only that name. |
| `MergeNames.CopyProjects` | backend/services/agent/code_workspace.py:514-568 | Every readable file of every project is copied, in order, under its own name in its folder or the first free copy of it; all names are distinct whatever the folders are. |
| `CopyPaths.CandidateIs` | backend/services/agent/code_workspace.py:467-468 | The name tried first is the folder, a slash and the file name with its slashes forward and leading ones dropped, or the stock name when nothing is left. |
| `CopyPaths.PathRoundTrip` | backend/services/agent/code_workspace.py:472 | A path put together from clean components is read as just these. |
| `CopyPaths.SplitPathIs` | backend/services/agent/code_workspace.py:472-475 | Parent, stem and suffix put together give the same components again, and the last dot decides where the suffix begins. |
| `PatchPayload.SafeAgain` | backend/services/agent/code_workspace.py:2955-2959 | A safe name is accepted again unchanged if and only if it does not end in `/..`; always when the original has at most 500 characters. |
| `PatchPayload.CutNameIsRefusedLater` | backend/services/agent/code_workspace.py:2959 | Some name is accepted, and its safe form refused. |
| `SafeNames.AcceptedIff` | backend/services/agent/code_workspace.py:2955-2959 | A name is accepted if and only if it has more than slashes and no part between slashes of either kind is a step up; it is handed out without leading slashes, with forward ones, cut at 500 characters. |
| `SafeNames.NormalizedNamesStay` | backend/services/agent/code_workspace.py:2962-2991 | No name an operation of a normalised patch uses has a step up before its last part, and only one of 500 characters has one there. |
| `PatchPayload.KindRoundTrip` | backend/services/agent/code_workspace.py:2968-2974 | The written type of a normalised operation is read back as the same type. |
| `PatchPayload.NormalizePatchOperations` | backend/services/agent/code_workspace.py:2962-2991 | The two loops compute the normalisation: first error or all items, generated ids counting skipped items too. |
| `PatchPayload.NormalizedPayload` | backend/services/agent/code_workspace.py:2962-2991 | Every normalised operation has an id and a canonical type, and stable names when the names given are short. |
| `PatchPayload.NormalizeAgain` | backend/services/agent/code_workspace.py:2962-2980 | A list of normalised operations normalises to itself, ids included, if and only if all its names are stable. |
| `PatchReading.PayloadRead` | backend/services/agent/code_workspace.py:2962-2991 | A patch is read if and only if each of its objects can be; each is then read by its own type word, id and names and by its place, in order, with nothing else about it changed. |
| `PatchSelection.SelectionsShareOut` | backend/services/agent/code_workspace.py:3452-3469 | Without hunk selections, applied and remaining operations are complementary sublists in the original order. |
| `PatchSelection.RemainderKeepsTargets` | backend/services/agent/code_workspace.py:3683-3687 | Whatever the names do, a remainder that can still be read has the same operations in order, with their ids, types, files and contents. |
| `PatchSelection.ShareFiles` | backend/services/agent/code_workspace.py:3366-3374 | The loop over file items splits them by their own files and operation ids. |
| `PatchSelection.ShownIdRejects` | backend/services/agent/code_workspace.py:3366-3374 | Rejecting a file item by the id it is shown with takes it if and only if that id is its own operation id. |
| `PatchSelection.ShownIdStays` | backend/services/agent/code_workspace.py:2982-2987 | After a reject, a file item that stays is shown with the same id if and only if the id is its own or no earlier item was taken. |
| `Workspace.NewTextIsMerged` | backend/services/agent/code_workspace.py:3551-3571 | For any matcher the text written is the wanted one, the old one, or the old one with exactly the accepted hunks. |
| `WorkspaceEffects.OperationLands` | backend/services/agent/code_workspace.py:3506-3643 | Each operation an apply has got to leaves what it promises, unless a later one works on its file: a created file is active, listed, under its safe name, described by its record and holds the content, a deleted one is inactive and not listed, a renamed one has its new name, a modified one its content; with hunks left out the texts merge the others. |
| `WorkspaceEffects.PatchLands` | backend/services/agent/code_workspace.py:3506-3643 | When the operations name different files, all of them leave that at the end of the patch, told by the files before it. |
| `WorkspaceEffects.CreatedApart` | backend/services/agent/code_workspace.py:3573-3597 | Files created by one patch are different files, in the order of its operations. |
| `WorkspaceEffects.FoldersAfter` | backend/services/agent/code_workspace.py:3512-3523 | An apply keeps the folders in their order and adds exactly those its operations name, each once. |
| `WorkspaceUndo.UndoOne` | backend/services/agent/code_workspace.py:3990-4044 | Restoring the item of a modify, delete or rename gives its file back with the text that was read from it, whatever happened to the rest of the store. |
| `WorkspaceUndo.FileRestored` | backend/services/agent/code_workspace.py:3573-3643 | After apply and rollback every targeted file has its name, status and place in the session again, and the text, checksum and size of what was read from it. |
| `WorkspaceUndo.CreatedTakenBack` | backend/services/agent/code_workspace.py:3995-4009 | Every file the patch created is deleted, without object and outside the session. |
| `WorkspaceUndo.FoldersRestored` | backend/services/agent/code_workspace.py:3971-3974 | A folder is there after apply and rollback if and only if it was before and the patch does not name it. |
| `WorkspaceUndo.SnapshotUndone` | backend/services/agent/code_workspace.py:3967-4046 | A rollback on any store that still holds the state right after the patch brings the state before it back, each targeted file with the text read from it. |
| `WorkspaceUndo.RestoredIff` | backend/services/agent/code_workspace.py:3551-4035 | So a file comes back exactly as it was if and only if it is not targeted or its object reads back as itself. |
| `WorkspaceUndo.ApplyThenRollback` | backend/services/agent/code_workspace.py:3402-4046 | For any mix of operations on distinct active files, one apply and one rollback are the identity on a file under exactly that condition, and on the session's file set always. |
| `WorkspaceUndo.RewrittenNotRestored` | backend/services/agent/file_service.py:420-436 | For every file whose reading is not its object: deleting it and rolling back leaves another file. |
| `WorkspaceUndo.JsonIsNotRestored` | backend/services/agent/file_service.py:189-194 | A `package.json` on one line is one. |
| `WorkspaceUndo.UndoStack` | backend/services/agent/code_workspace.py:3737-3748 | After any n <= 11 applies, n rollbacks restore a file exactly if and only if no patch targets it or its object reads back as itself; the session's file set always; the folders, except those named by a patch. |
| `WorkspaceUndo.TwelfthUndoIsRefused` | backend/services/agent/code_workspace.py:3737-3748 | However many patches were applied, a twelfth rollback in a row fails. |
| `ApplyOutcomes.OthersStay` | backend/services/agent/code_workspace.py:3950-3967 | A rollback takes one snapshot off the stack, the newest without an index, and every other one can still be rolled back. |
| `WorkspaceFailures.ApplySucceedsIff` | backend/services/agent/code_workspace.py:3539-3551 | For separate targets a patch goes through if and only if, beforehand, every needed target exists and can be read, every file id is one and every name is acceptable. |
| `WorkspaceFailures.StopsAtFirstRefused` | backend/services/agent/code_workspace.py:3539-3551 | For separate targets the loop gets exactly to the first operation that cannot be applied to the files as they were before it. |
| `WorkspaceFailures.FailedApply` | backend/services/agent/code_workspace.py:3542-3643 | A failed apply leaves records and objects in agreement if and only if no operation before that one writes another object than the one stored into an active file. |
| `WorkspaceRuns.SnapshotHoldsMark` | backend/services/agent/code_workspace.py:3594-3643 | The snapshot of any patch holds, for each file, the last text read from it, its name before its last renaming, and whether it was deleted. |
| `WorkspaceRuns.AnyPatchRollsBack` | backend/services/agent/code_workspace.py:3969-4044 | For any operations, however many on one file, the rollback leaves that text and that name, and the file active and in the session if it was deleted. |
| `WorkspaceRuns.AnyPatchRestoresIff` | backend/services/agent/code_workspace.py:3969-4044 | So an active file is restored exactly if and only if no operation is on it, or the last text read is its own object, it had its own name before its last renaming, and it was in the session if it is deleted. |
| `WorkspaceRuns.TwoEditsRollBackToFirst` | backend/services/agent/code_workspace.py:3969-4035 | Two edits of one file roll back to the text read after the first. |
| `WorkspaceRuns.TwoRenamesRollBackToSecond` | backend/services/agent/code_workspace.py:4019-4035 | Two renamings of one file roll back to the name in between. |
| `WorkspaceRuns.RunConsistent` | backend/services/agent/code_workspace.py:3573-3643 | Through any run of successful applies and rollbacks of any snapshots, every active record has the checksum and size of its object. |
| `WorkspacePreviews.PreviewOperations` | backend/services/agent/code_workspace.py:3216-3288 | The loop computes the preview, skipping operations whose file is missing and failing on an unacceptable folder name, a malformed file id or a file that cannot be read. |
| `WorkspacePreviews.BaseIsFirstChecksum` | backend/services/agent/code_workspace.py:3224-3250 | Over any number of previews an operation keeps the checksum its file had at the first one. |
| `WorkspacePreviews.ConflictMeansChanged` | backend/services/agent/code_workspace.py:3287 | An operation is flagged as conflicting if and only if its file's object differs from the one at the first preview. |
| `WorkspacePreviews.PartialApplyConflicts` | backend/services/agent/code_workspace.py:3688-3698 | Kept pending, a modification applied in part conflicts if and only if that part changed the object. |
| `ApplyOutcomes.PreviewFailsIff` | backend/services/agent/code_workspace.py:3204-3260 | A preview fails if and only if one of its operations has no usable file id, a folder name that is refused, or a file that cannot be read. |
| `CodeSessions.CodeSession.ApplyOperation` | backend/services/agent/code_workspace.py:3507-3643 | The new records, objects, session files and folders after one operation, and its snapshot item, with the text that was read. |
| `CodeSessions.CodeSession.ApplyOperations` | backend/services/agent/code_workspace.py:3503-3680 | The loop applies all operations in order, or fails leaving only the written objects. |
| `CodeSessions.CodeSession.PreviewPatchPayload` | backend/services/agent/code_workspace.py:3204-3294 | The session with a new preview, or no change when the patch or a file cannot be read. |
| `CodeSessions.CodeSession.GeneratePatch` | backend/services/agent/code_workspace.py:2924-2931 | The new patch in place of the old one, previewed with the old preview still there; a failing preview leaves the new patch. |
| `CodeSessions.CodeSession.ApplyPatchPayload` | backend/services/agent/code_workspace.py:3402-3501 | Selection, the check for conflicts on a fresh preview, and what each refusal leaves of the session. |
| `CodeSessions.CodeSession.FinishApply` | backend/services/agent/code_workspace.py:3682-3776 | The snapshot pushed on the last ten, the remainder pending and previewed; a failure undoes all but the written objects. |
| `CodeSessions.CodeSession.RejectPatchPayload` | backend/services/agent/code_workspace.py:3337-3399 | What is rejected, what stays pending and what stays of the preview, for operations, for file items and with nothing selected. |
| `CodeSessions.CodeSession.Restore` | backend/services/agent/code_workspace.py:3969-4044 | The state after rolling one snapshot item back. |
| `CodeSessions.CodeSession.RollbackSnapshot` | backend/services/agent/code_workspace.py:3950-4046 | The chosen snapshot leaves the stack and its items are restored first to last; refusals change nothing. |
| `CodeSessions.WholeSelectionIsFullApply` | backend/services/agent/code_workspace.py:3429-3449 | Selecting all pending hunks of an operation writes the text that applying the whole operation would write. |
| `CodeSessions.PartialSelectionLeavesHunk` | backend/services/agent/code_workspace.py:3461-3469 | An operation that is applied by its hunks and stays pending has a pending hunk that is not written, or none at all. |
| `ApplyOutcomes.ApplySucceeded` | backend/services/agent/code_workspace.py:3412-3503 | An apply that succeeds has taken exactly the operations its selection means, in order; the files are as they leave them and their snapshot is on top. |
| `ApplyOutcomes.ApplyLands` | backend/services/agent/code_workspace.py:3412-3643 | So each of them leaves in the session what it promises, when they name different files. |
| `ApplyOutcomes.ApplyRefused` | backend/services/agent/code_workspace.py:3412-3503 | A refused apply changes no record, place, folder, stack, patch or verdict; most refusals change nothing at all, a conflict only the preview. |
| `ApplyOutcomes.ApplyUnavailable` | backend/services/agent/code_workspace.py:3421-3476 | A selection that means no operation is refused as unavailable, one whose hunk needs a file that cannot be read as unreadable, and only these. |
| `ApplyOutcomes.ForeignHunk` | backend/services/agent/code_workspace.py:3421-3425 | A hunk selects its own operation, every one whose id its own id goes on from with a dash, the one named by its own id, a dash and the file, and no other. |
| `ApplyOutcomes.RejectTakes` | backend/services/agent/code_workspace.py:3341-3399 | A reject by file or id takes exactly the operations it names out of the patch and their entries out of the preview, in order; it fails if and only if the patch cannot be read. |
| `ApplyOutcomes.RejectTakesFiles` | backend/services/agent/code_workspace.py:3364-3399 | The same for a list of file items, by their own files and ids; when none is left, patch and preview are dropped. |
| `SessionRuns.ShortNamesLast` | backend/services/agent/code_workspace.py:2955-2991 | A readable patch of operations whose names have at most 500 characters meets the condition of the two results below. |
| `SessionRuns.NextSharesOut` | backend/services/agent/code_workspace.py:3337-3475 | Any call on a pending patch, refused or not, shares its operations out between those it takes and those that stay, both in order. |
| `SessionRuns.RunConservesOperations` | backend/services/agent/code_workspace.py:2924-3475 | Over any run of generations, previews, partial applies, rejects, rollbacks, refused calls and outside changes, from a patch not yet normalised, every operation that was pending or generated is still pending or was taken (or replaced by a new patch) exactly once. |
| `SessionRuns.RejectByShownId` | backend/services/agent/code_workspace.py:3337-3399 | Rejecting a file item by the id it is shown with: a blank id drops the whole patch, any other takes the item if and only if it is its own operation id. |
| `AutoApply.ClassifyAutoApplyOperations` | backend/services/agent/code_workspace.py:3783-3843 | The loop, with its look-up of previews by id and else by file, splits the operations into safe, under review and conflicting. |
| `AutoApply.ClassesShareOut` | backend/services/agent/code_workspace.py:3802-3843 | Safe and review-required operations share the patch out, and the conflicts are exactly the conflicting ones under review, in order. |
| `SafeApplies.SafeIff` | backend/services/agent/code_workspace.py:3784-3842 | What is safe creates a file or folder or modifies a file it names, and has no conflict under its id. With an entry of its own that is enough; one without is held back if all entries that show its file conflict, and not if none does. |
| `SafeApplies.NothingTakenAway` | backend/services/agent/code_workspace.py:3846-3935 | When the automatic apply takes just what is safe, no file is deleted, renamed or taken out of the session, and no deleted one comes back. |
| `SafeApplies.NothingSafe` | backend/services/agent/code_workspace.py:3846-3878 | When nothing is safe only the preview changes: it is made twice, the second time from the entries of the first. |
| `AutoApply.SelectsSafeIff` | backend/services/agent/code_workspace.py:3875-3882 | The ids of the safe operations select exactly the safe operations if and only if none is blank or shared with one under review (or all are blank and nothing is under review). |
| `AutoApply.LeavesReview` | backend/services/agent/code_workspace.py:3461-3469 | And then what stays pending is exactly what is under review. |
| `AutoApply.ApplySafePatchPayload` | backend/services/agent/code_workspace.py:3846-3882 | The whole call on a session, with the refusals of the apply inside. |
| `AutoApply.AppliesSafeIff` | backend/services/agent/code_workspace.py:3846-3882 | The call applies exactly the safe operations if and only if nothing is safe, or the ids decide, no conflict touches a safe operation, the apply goes through and what stays can be previewed. |
| `AutoApply.AppliesSafeIffAppliable` | backend/services/agent/code_workspace.py:3476-3550 | With distinct ids and separate safe targets that comes down to: every safe operation is appliable beforehand, no conflicting operation shares a file with one, and the files under review are readable after the apply. |
| `AutoApply.AppliesSafeIffForeseen` | backend/services/agent/code_workspace.py:3476-3571 | And when no operation names a file yet to come, to what can be told before the call: a file under review that a safe operation modifies is readable in the text that operation writes. |
| `AutoApply.SeparatePatchIff` | backend/services/agent/code_workspace.py:3846-3882 | When all operations have separate targets: exactly the safe operations are applied if and only if each is appliable beforehand, and none of them is destructive or conflicting. |
| `AutoApply.BlankIdsApplyEverything` | backend/services/agent/code_workspace.py:3329-3330 | When something is safe but all safe ids are blank, a call that succeeds applies the whole patch. |
| `AutoApply.RefusedChangesNoFile` | backend/services/agent/code_workspace.py:3470-3501 | A refused call leaves records, session files, folders, undo stack, pending patch and verdicts as they were. |
| `SharedIds.BaseIsKept` | backend/services/agent/code_workspace.py:3210-3250 | In a shielded list the base found under the id of an operation on a file, after a preview, is the base kept so far or else the checksum of that file, whatever else has the id. |
| `SharedIds.LeftKeepsShields` | backend/services/agent/code_workspace.py:3429-3469 | What any selection, by files, ids or hunks, leaves of a shielded list is shielded. |
| `SharedIds.OneFilePerIdIsShielded` | backend/services/agent/code_workspace.py:3210-3213 | Operations that keep to one file per id are shielded. |
| `ShownEntries.RunFollows` | backend/services/agent/code_workspace.py:3204-3396 | At every point of every run the entry found under the id of a pending operation on a file has the checksum that file was first shown with. |
| `LostUpdates.NoLostUpdate` | backend/services/agent/code_workspace.py:3476-3501 | Over any run of previews, partial applies, rejects, rollbacks and outside changes of a guarded patch, from its generation or unseen, the files that an apply without allowed conflicts takes have the checksums they were first shown with. |
| `LostUpdates.RefusedIffChanged` | backend/services/agent/code_workspace.py:3476-3501 | Such an apply is refused if and only if an operation whose file changed since it was first shown has the id or the file of one that is taken. |
| `LostUpdates.NoLostText` | backend/services/agent/code_workspace.py:3476-3501 | And where records describe their objects, the file still holds the object it held when the operation was first shown. |
| `LostUpdates.StaleEntriesDecide` | backend/services/agent/code_workspace.py:2924-2931 | After a guarded patch on existing files has replaced another, every apply of every run is refused exactly for changes since the generation if and only if the old preview has no base under its ids other than the file's checksum. |
| `MissedUpdates.SharedIdMisses` | backend/services/agent/code_workspace.py:3210-3250 | If the last entry under an operation's id is none of its file, some run ends in an apply that goes through and takes the file although it has changed since it was first shown. |
| `MissedByFileItems.SharedFileIdMisses` | backend/services/agent/code_workspace.py:2982-2987 | The same for a list of file items with two files under one id. |
| `MissedByFileItems.GeneratedIdMisses` | backend/services/agent/code_workspace.py:3366-3382 | The same for every file item that names a file and has no operation id: rejecting by the shown ids takes nothing and drops the entries. |
| `MissedByHunks.TornIsMissed` | backend/services/agent/code_workspace.py:3429-3469 | The same when a selection of hunks separates the operation from the later ones on its file and leaves a creation under the id between them. |
| `GuardNeeded.FolderHidesFile` | backend/services/agent/code_workspace.py:3231-3246 | The same for an operation on a file and a folder under its id. |
| `GuardNeeded.GuardIsNeeded` | backend/services/agent/code_workspace.py:3210-3501 | The same for every patch that is not guarded. |
| `GuardNeeded.GuardDecides` | backend/services/agent/code_workspace.py:3210-3501 | No run of a patch that has not been previewed ends in such an apply if and only if the patch is guarded. |
| `ToolRegistry.Registry.ApplyPatch` | desktop/runtime/tool-registry.js:284-309 | The file tree and the snapshots after the call, for every validation and file-system failure. |
| `ToolRegistry.Registry.RollbackPatch` | desktop/runtime/tool-registry.js:318-348 | The file tree after the call and the snapshot marked used, or no change. |
| `ToolRegistry.SnapshotsSurvive` | desktop/runtime/tool-registry.js:130-144 | Whatever the tools do, a snapshot keeps its contents and is never unused again. |
| `ToolRegistry.RollbackRestoresOrRefuses` | desktop/runtime/tool-registry.js:318-347 | With anything done in between, a create or modify rollback fails and changes nothing, or puts its path back as it was just before its own apply and touches nothing else. |
| `ToolRegistry.RollbackOnce` | desktop/runtime/tool-registry.js:321-340 | A snapshot that was rolled back once is refused ever after. |
| `ToolRegistry.UndoLast` | desktop/runtime/tool-registry.js:323-347 | Undoing the last apply succeeds and gives back all files before it. |
| `ToolRegistry.ReverseUndo` | desktop/runtime/tool-registry.js:284-347 | Any run of successful creates and modifications, repeated paths included, is undone by rollbacks in reverse: all succeed and every file is as it was. |
| `ToolGuards.AppliesIff` | desktop/runtime/tool-registry.js:87-132 | A patch is applied if and only if its path is permitted and, for a folder or a file to be created, nothing stands there or in the way, for a modification, the file is there with the hash that is given; a refused one changes nothing. |
| `ToolGuards.AppliedTree` | desktop/runtime/tool-registry.js:284-309 | An applied patch changes its own path and, for a create, the folders that were missing above it. |
| `ToolGuards.ConflictIff` | desktop/runtime/tool-registry.js:100-118 | A conflict is reported if and only if what would be created is there, or what would be modified is not or has another hash. |
| `ToolGuards.HashProtects` | desktop/runtime/tool-registry.js:116-118 | In any run, a patch that names a hash replaces no text with another one, and only modifications replace texts. |
| `ToolGuards.StaleModifyIsRefused` | desktop/runtime/tool-registry.js:116-118 | A modification under the hash of a text read before any run is applied if and only if the file holds that very text. |
| `ToolGuards.RollsBackIff` | desktop/runtime/tool-registry.js:318-349 | Whatever ran since an apply, its rollback goes through if and only if it was not made yet and the file is gone or still has the applied text, or the folder is empty; what it changes, for folders too. |
| `AgentJobs.JobTable.SweepJob` | backend/services/agent/agent_jobs.py:171-219 | The record of one swept job, and whether it was stale. |
| `AgentJobs.JobTable.MarkStale` | backend/services/agent/agent_jobs.py:159-222 | Every stale live job of the user is swept exactly once, all others stay, and the count is right, in any order. |
| `AgentJobs.JobTable.CancelJob` | backend/services/agent/agent_jobs.py:255-282 | The record after a cancellation; jobs of others and final ones are left alone. |
| `AgentJobs.JobTable.PauseJob` | backend/services/agent/agent_jobs.py:285-307 | The record after a pause. |
| `AgentJobs.JobTable.ResumeJob` | backend/services/agent/agent_jobs.py:310-332 | The record after a resume. |
| `AgentJobs.JobTable.ResetForRetry` | backend/services/agent/agent_jobs.py:335-365 | The record after a retry request, and each of the four refusals. |
| `AgentJobs.JobTable.ClaimJob` | backend/worker/tasks.py:25-53 | Which jobs a worker takes, ignores or cancels. |
| `AgentJobs.JobTable.HandleTaskFailure` | backend/worker/tasks.py:77-104 | The counted retry, and the dead letter at the limit. |
| `AgentJobs.RetriesBounded` | backend/worker/tasks.py:77-102 | With at most one execution under way, at every point of every run the retry count is at most one beyond the limit, and beyond it only for a dead letter with nothing under way. |
| `AgentJobs.DeadLetterStays` | backend/services/agent/agent_jobs.py:187-203 | A dead letter with nothing under way never changes again, in any run. |
| `AgentJobs.TwoExecutionsUnbounded` | backend/worker/tasks.py:84-100 | With two executions under way, every retry count is exceeded by some run. |
| `JobControl.StoppedIff` | backend/services/agent/agent_jobs.py:244-282 | Claims and starts stop for jobs with a cancellation or a pause, and for ended ones with nothing under way, and for no others. |
| `JobControl.RevivedIff` | backend/services/agent/agent_jobs.py:244-383 | A stopped job is set going by exactly these steps: a resume of a paused one, an accepted retry, a failure that is retried, and an end while another execution is under way. |
| `JobControl.CancelStops` | backend/services/agent/agent_jobs.py:255-314 | A cancellation or a pause stops every job but an ended one with an execution under way; after it no claim is taken and no execution starts before one of those steps. |
| `JobControl.CancelIsHeeded` | backend/services/agent/worker.py:123-129 | The worker that asks next ends the job as cancelled. |
| `JobControl.DeadLetterStarts` | backend/services/agent/worker.py:124-130 | A cancelled job can run all the same: the sweep makes it a dead letter and its claimed execution starts. |
| `JobControl.SweptIff` | backend/services/agent/agent_jobs.py:160-190 | The sweep changes a job if and only if it is live and its heartbeat or its start, or for want of one its creation, is older than the cutoff. |
| `JobControl.RetryIff` | backend/services/agent/agent_jobs.py:345-383 | A retry is accepted for exactly the background jobs of a session that are neither running nor queued and have retries left, and then the next claim is taken. |
| `JobControl.SweepMinds` | backend/services/agent/agent_jobs.py:160-175 | A sweep changes no job of another user, nor of another session when one is given. |
| `AgentJobs.SweepDrains` | backend/services/agent/agent_jobs.py:182-208 | Left to the sweep, a stale live job leaves the live statuses at exactly the predicted sweep and not before, counting its retries on the way. |
| `TaskGraph.CollectNodes` | backend/services/agent/arceus_runtime/mission_runtime/service.py:66-82 | The nodes with the later duplicate winning, and whether all keys are unique. |
| `TaskGraph.Release` | backend/services/agent/arceus_runtime/mission_runtime/service.py:103-106 | Counting a finished task off keeps every in-degree right and frees exactly the tasks that wait for nothing else. |
| `TaskGraph.KahnOrder` | backend/services/agent/arceus_runtime/mission_runtime/service.py:98-107 | The order has no repeats, respects the dependencies, and is complete if and only if no set of tasks waits for itself. |
| `TaskGraph.ValidateTaskDag` | backend/services/agent/arceus_runtime/mission_runtime/service.py:64-124 | A plan is accepted if and only if its keys are unique, its dependencies known and it has no cycle; then the order is a topological order of all tasks. |
| `TaskGraph.StuckNeverOrdered` | backend/services/agent/arceus_runtime/mission_runtime/service.py:100-106 | No task of a cycle is in any dependency order. |
| `TaskGraph.PlanHasRoot` | backend/services/agent/arceus_runtime/mission_runtime/service.py:112 | A non-empty accepted plan has a task without dependencies. |
| `Missions.RecentMission` | backend/services/agent/cognitive_execution.py:595-606 | Finds the newest of the last 250 missions with the same key. |
| `Missions.MissionStore.CreatePersistedMission` | backend/services/agent/cognitive_execution.py:586-684 | One new well-kept mission, or nothing at all on a replay or a reused key. |
| `MissionKeys.KeyIsFoundIff` | backend/services/agent/cognitive_execution.py:595-606 | A used key is found again if and only if fewer than 250 missions have been created since, and then it is its newest mission. |
| `MissionKeys.RunSpacesKeys` | backend/services/agent/cognitive_execution.py:595-611 | Over any run of creates, missions with the same key are more than 250 apart. |
| `MissionKeys.OnePerKeyIff` | backend/services/agent/cognitive_execution.py:595-611 | A run of creates makes at most one mission per key if and only if no request comes with a used key that 250 or more missions have been created since. |
| `MissionKeys.RepeatedRequestIff` | backend/services/agent/cognitive_execution.py:595-611 | A request repeated after n other missions makes a second mission if and only if n >= 250. |
| `Missions.GapFreeMax` | backend/services/agent/cognitive_execution.py:420-427 | In a log without gaps the largest version is the length, so the next event extends it without a gap. |
| `Missions.CreateTasks` | backend/services/agent/cognitive_execution.py:705-729 | One pending task and one event per spec, in order. |
| `Missions.LinkTasks` | backend/services/agent/cognitive_execution.py:730-738 | One edge per listed dependency. |
| `Missions.ReleaseTasks` | backend/services/agent/cognitive_execution.py:740-748 | Roots become ready with one message each, the others blocked. |
| `Missions.MaterializeTasksOnce` | backend/services/agent/cognitive_execution.py:687-750 | Nothing when tasks exist, refusal of an invalid plan, the whole graph otherwise. |
| `Missions.MaterializedBuilt` | backend/services/agent/cognitive_execution.py:687-750 | The graph built has one row per task, the right status and message for each, and a log without gaps. |
| `Missions.MissionStore.ApprovePersistedMission` | backend/services/agent/cognitive_execution.py:753-786 | The approved mission, or the mission unchanged with the error of the first failing check; every mission stays well kept. |
| `Missions.MissionStore.RejectPersistedMission` | backend/services/agent/cognitive_execution.py:789-810 | The cancelled mission, or no change with the error; every mission stays well kept. |
| `Missions.RunWellKept` | backend/services/agent/cognitive_execution.py:753-810 | Over any run of approvals and rejections: versions 1..n, an outbox that is exactly the task.ready events, and a graph that is complete after approval and empty before. |
| `Missions.DecidedOnce` | backend/services/agent/cognitive_execution.py:768-775 | Over any run the first call that decides the mission is the only one with an effect; repeated approval adds nothing. |
| `MissionStory.ApprovedIff` | backend/services/agent/cognitive_execution.py:764-786 | An approval is granted under exactly these conditions; the first one counts the version up, approves every proposed decision and no other, and adds the whole story of the graph to the log, a later one changes nothing. |
| `MissionStory.RejectedIff` | backend/services/agent/cognitive_execution.py:800-807 | A rejection is granted under exactly these conditions, and cancels the mission only. |
| `MissionStory.NewMissionTold` | backend/services/agent/cognitive_execution.py:749-807 | In every run a mission waits with its decisions proposed, is cancelled with them proposed, or is ready with each approved once, and its log tells exactly that, entry by entry. |
| `Missions.EdgesJoinTasks` | backend/services/agent/cognitive_execution.py:730-737 | The edges of an approved mission are exactly its plan's dependencies, between created tasks. |
| `Missions.ReadyTasksAreQueuedOnce` | backend/services/agent/cognitive_execution.py:739-748 | A ready task has exactly one message and no dependency, a blocked one no message. |
| `Missions.SomethingIsReady` | backend/services/agent/cognitive_execution.py:739 | An approved mission with a non-empty plan has a ready task. |
| `MissionStory.ReadyIff` | backend/services/agent/cognitive_execution.py:739-748 | A task of an approved mission is ready if and only if it waits for nothing and its plan lets it start, or no task of the plan does both; every other one is blocked. |
| `Missions.MessagesCarryEvents` | backend/services/agent/cognitive_execution.py:457-470 | Every message of the outbox carries the version and the task of one task.ready event. |
| `MissionPlans.BuildTasks` | backend/services/agent/cognitive_execution.py:270-289 | The plan has exactly the tasks the goal needs, each waiting for exactly what it should, is accepted by the validator, and only its first task is ready. |
| `MissionPlans.GatedIsValid` | backend/services/agent/cognitive_execution.py:270-289 | A plan whose tasks wait for earlier ones only passes validation. |
| `MissionPlans.GateComesFirst` | backend/services/agent/cognitive_execution.py:275-288 | In every order that respects the dependencies, human approval comes before every task after it in the plan. |
| `MissionPlans.VerificationComesLast` | backend/services/agent/cognitive_execution.py:285-287 | In every order that respects the dependencies the verification comes after every change. |
| `Autonomy.CheckDependencies` | backend/services/agent/autonomy.py:247-253 | The loop gives the state of the dependencies. |
| `Autonomy.FirstUnfinishedDecides` | backend/services/agent/autonomy.py:248-253 | The first dependency that is not done decides between failed and blocked. |
| `Autonomy.AutonomyEngine.CreateApprovalForTask` | backend/services/agent/autonomy.py:202-237 | Returns the pending approval of the task, adding one only when there is none. |
| `Autonomy.AutonomyEngine.VisitTask` | backend/services/agent/autonomy.py:274-325 | The effect and the result of one task of the cycle. |
| `Autonomy.AutonomyEngine.RunAutonomousCycle` | backend/services/agent/autonomy.py:268-336 | Each task is judged by the statuses found when its turn comes; a dry run changes nothing. |
| `Autonomy.ExecutionsFollowDependencies` | backend/services/agent/autonomy.py:274-316 | Over any run of cycles and user actions, a task runs only after each dependency was done at the start, ran successfully or was marked done. |
| `Autonomy.CyclesNeverRun` | backend/services/agent/autonomy.py:275-276 | Over any run no task of an unfinished dependency cycle is executed, unless the user marks one of them. |
| `Autonomy.OnePendingApproval` | backend/services/agent/autonomy.py:194-205 | Over any run a task that started with at most one pending approval never has two. |
| `ApprovalGate.CycleEffect` | backend/services/agent/autonomy.py:274-325 | What a cycle does to each task of its queue, told by the statuses before and after: not due stays, due and in need of approval waits with a pending approval and is not run, any other due one is run once and is done or failed; the result says just that. |
| `ApprovalGate.CycleLog` | backend/services/agent/autonomy.py:307-325 | A cycle only adds to the log and the approvals, and each run it logs needs no approval and has the outcome of its execution. |
| `ApprovalGate.ApprovalsGateRuns` | backend/services/agent/autonomy.py:268-336 | At any point of any run a cycle runs no task that needs approval and at most twenty tasks; each due one that needs approval is left waiting, not run, with exactly one pending approval. |
| `ApprovalGate.WaitsForApproval` | backend/services/agent/autonomy.py:303-309 | A task that waits for approval, or was rejected, is never run in a run in which the user neither approves it nor sets its status by hand. |
| `ApprovalGate.ResolvedOnce` | backend/services/goals/main.py:327-349 | An approved task is queued again and a rejected one failed; the approval is pending no more. |
| `Autonomy.OrderedQueueFinishes` | backend/services/agent/autonomy.py:274-316 | A queue in dependency order, nothing held up, is finished in one cycle, and nothing else is. |
| `Coordinator.PollKeepsLimits` | desktop/runtime/worker-coordinator.js:159-200 | A poll keeps active slots within the total and every class limit, and active assignments and tasks distinct. |
| `Coordinator.PollIsMaximal` | desktop/runtime/worker-coordinator.js:195-199 | After a poll none of the offered assignments could still be started. |
| `PollRoom.PollTakesAll` | desktop/runtime/worker-coordinator.js:159-200 | After a poll each offered assignment is worked on, itself or its task, or the worker or its class is full. |
| `PollRoom.PollTakesOnly` | desktop/runtime/worker-coordinator.js:159-200 | Each new slot has an offered assignment with its task and class that nobody worked on, and there was room for it. |
| `PollRoom.LimitsAsGiven` | desktop/runtime/worker-coordinator.js:7-45 | The limit of a class is the one given, else the default, else the total. |
| `Coordinator.ClosedOnlyWhenHarmless` | desktop/runtime/recovery/repository-reconciler.js:95-136 | Recovery closes an entry if and only if it expired while executing in a repository without conflicts or was rolled back to unchanged files. |
| `Coordinator.NextSafe` | desktop/runtime/worker-coordinator.js:188-337 | Every step of any slot, poll, failure, crash or recovery keeps the limits and the write-ahead rule. |
| `Coordinator.RunSafe` | desktop/runtime/worker-coordinator.js:64-337 | In every run, at every interleaving and crash point: within all limits, no shared assignment or task, and an entry that recovery looks at for every assignment accepted and neither acknowledged nor closed. |
| `Coordinator.AskedSlotsKeepEntries` | desktop/runtime/worker-coordinator.js:207-336 | In every run, each slot that sent its accept request, failed ones included, has an entry that recovery looks at until its completion is acknowledged. |
| `Coordinator.AcceptedKeepsEntry` | desktop/runtime/worker-coordinator.js:202-336 | Once its accept request is sent, an assignment has an entry that recovery looks at, at every later point of every run, crashes included, until its completion is acknowledged or recovery closes the entry. |
| `RequestOrder.SlotsKeepOrder` | desktop/runtime/worker-coordinator.js:202-313 | In every run each slot has sent, seen answered and written exactly what comes before the await it is at, each once and in this order, whatever the others do. |
| `RequestOrder.AcknowledgedInOrder` | desktop/runtime/worker-coordinator.js:202-313 | In every run an assignment that counts as acknowledged was accepted, claimed, executed, had evidence and change set posted, the verifying stage noted and the task completed, by one slot and in this order, each after the answer to the one before. |
| `Coordinator.LiveSlotsKeepEntries` | desktop/runtime/worker-coordinator.js:188-312 | In every run in which no poll starts an assignment that an earlier slot is still cleaning up, every live slot finds its own entry. |
| `Coordinator.OpenAcceptancesKeepEntries` | desktop/runtime/worker-coordinator.js:202-336 | In such runs every single acceptance, also one after an earlier completion of the same assignment, has an entry that recovery looks at until its own acknowledgement or closing, failed slots and crashes included. |
| `Coordinator.RestartLosesEntry` | desktop/runtime/worker-coordinator.js:309-312 | Whenever such a start has happened, some continuation without another poll leaves a live slot without its entry. |
| `Coordinator.EntriesStayIff` | desktop/runtime/worker-coordinator.js:188-312 | So from any safe state with all entries in place, they stay in every continuation without another poll if and only if no live slot shares its assignment with one still cleaning up. |
| `Coordinator.ReofferLosesEntry` | desktop/runtime/worker-coordinator.js:188-312 | From the very start, whenever there is room for one assignment, there is a run that ends with a live slot without an entry. |
| `Coordinator.WorkerCoordinator.PollAssignments` | desktop/runtime/worker-coordinator.js:188-200 | Starts a slot for each offered assignment with room, in order, and stays safe. |
| `Coordinator.WorkerCoordinator.CreateSlot` | desktop/runtime/worker-coordinator.js:168-186 | One new slot, already accepting. |
| `Coordinator.WorkerCoordinator.constructor` | desktop/runtime/worker-coordinator.js:25-56 | A process that starts over the journal of an earlier one is that run after a crash. |
| `Coordinator.WorkerCoordinator.FetchEntry` | desktop/runtime/recovery/execution-journal.js:44-51 | An update of the journal has read the entry it is going to write back, still safe. |
| `Coordinator.WorkerCoordinator.MergeEntry` | desktop/runtime/recovery/execution-journal.js:28-37 | A write has read what the entry holds by then and merged its own fields into it, still safe. |
| `Coordinator.WorkerCoordinator.LandJournal` | desktop/runtime/recovery/execution-journal.js:38-42 | The file is replaced by what was merged, whatever has been written in between, or removed, still safe. |
| `Coordinator.WorkerCoordinator.OnStageChanged` | desktop/runtime/worker-coordinator.js:249-262 | A stage reported by the executor becomes a pending update, still safe. |
| `Coordinator.WorkerCoordinator.RunAssignment` | desktop/runtime/worker-coordinator.js:202-313 | The slot after its next stretch of code and the request it sends, still safe. |
| `Coordinator.WorkerCoordinator.FailRun` | desktop/runtime/worker-coordinator.js:314-336 | The slot is failed, reports it and its entry is kept, still safe. |
| `Coordinator.WorkerCoordinator.RecoverUnfinishedExecutions` | desktop/runtime/worker-coordinator.js:75-137 | The loop is the recovery part of the run, from the start to the first poll, still safe: exactly the entries that recovery closes are gone, with the duty to keep them, and the others keep task and stage. |
| `RecoveryNotes.DecisionIff` | desktop/runtime/recovery/repository-reconciler.js:95-136 | Each decision has its case: disturbed repositories go to a human, of the others an expired execution is abandoned, an expired one rolled back to unchanged files recovered. |
| `RecoveryNotes.RecoveryLeaves` | desktop/runtime/worker-coordinator.js:75-137 | When the coordinator is up, every unfinished entry is gone where recovery closes it, unchanged where an error came up, and else notes the decision and nothing else; all other entries are untouched. |
| `RecoveryNotes.UpdateKeepsNote` | desktop/runtime/recovery/execution-journal.js:28-51 | An update with nothing in between changes the stage and keeps task and recovery note. |
| `RecoveryNotes.FirstWriteKeepsNote` | desktop/runtime/recovery/execution-journal.js:28-42 | The first write of a slot makes an accepted entry for its task and keeps the note of an entry that is still there. |

## Left out

- The on-disk mirror of the workspace (a session with a local folder reads the file there), record metadata, timestamps, activity and audit logs, job log rows, Redis, Celery and SQLAlchemy transport.
- `difflib`'s matcher, SHA-256 and uuid generation; what `get_file_text` makes of each format, which is a parameter; file encodings and line-ending conventions; letters and white space beyond ASCII.
- JSON parsing of a stored patch, and the splitting of an operation's content into lines: operations carry their content as lines.
- File ids are numbers: two spellings of one uuid are not modelled, any other text is a malformed id.
- CodeSessions.CodeSession.PreviewPatchPayload: the diff text, impact counts and hunk lists of a preview item are not modelled.
- CodeSessions.CodeSession.ApplyPatchPayload: the summary, checks and workspace task of a session are not modelled; of the verdicts on hunks only the rejections count.
- SessionRuns.RunConservesOperations: selections by hunk keep an operation pending that they also apply (`PartialSelectionLeavesHunk`), and lists of file items are rejected item by item before they have ids, so both are left out; so are names that are refused when read again.
- LostUpdates.NoLostUpdate: a list of file items has to be readable when the run begins; a run goes on to the next generation of a patch.
- LostUpdates.StaleEntriesDecide: the patch can be previewed when it is generated and names files that exist.
- GuardNeeded.GuardDecides: the operations can be worked on (names that last, no malformed file id, folders with names, objects that can be read), ids are not blank, and file items are objects; blank ids cannot be rejected, and items that are no objects block every reject. Operations that only a selection of hunks can separate can all be applied, and the matcher divides some text between them (`WantedTextDivides` says when one that finds hunks exactly between different texts does).
- Coordinator.RunSafe: an assignment that was acknowledged once is exempt, because a poll may restart it too early; `OpenAcceptancesKeepEntries` covers it in the runs that wait for cleanups. Runs with `stop` are excluded, because a stopping slot can be set running again; heartbeats and lease renewals, which change no slot status, are left out.
- Coordinator.AskedSlotsKeepEntries: the same exemption, as it holds of every run.
- Coordinator.AcceptedKeepsEntry: the same exemption, as it holds of every run.
- Coordinator.WorkerCoordinator.LandJournal: the journal is a durable map from assignment ids; two ids whose file names coincide are not modelled.
- RequestOrder.AcknowledgedInOrder: what the requests carry is not modelled.
- Coordinator.WorkerCoordinator.RunAssignment: the stages an executor reports are those of the controlled executor.
- ToolRegistry.Registry.ApplyPatch: validation and write are one atomic step; symbolic links and escapes from the repository root are not modelled.
- AgentJobs.JobTable.MarkStale: records whose heartbeat text cannot be parsed count as having none.
- Missions.MissionStore.ApprovePersistedMission: a refused call leaves nothing behind, because nothing was committed; agents, contracts and payload texts of tasks are not modelled.
- MissionKeys.OnePerKeyIff: the missions of one tenant, in the order of their creation; creations at the same instant are taken as ordered.
- Autonomy.AutonomyEngine.RunAutonomousCycle: the assessment of a task, its outcome and the order of the queue are parameters.
- TaskGraph.KahnOrder: the order among equally ready tasks is left open; critical paths are left out.
- Goal understanding, autonomy scoring, prompts, sandboxes, terminals, GitHub, the frontend and the transition tables of `collaboration_runtime.py` and its neighbours, which would only add easy members.
