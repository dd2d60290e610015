# Agent_Sam: a Dafny model of its core

Agent_Sam is a private agent runtime: a task queue with workers, an action loop and a conversation loop that
drive a model through tools, a file editor with undo, a shell tool with approvals, workspaces with snapshots, a
versioned skill store, and an env-file rewriter. This project models the parts with real state or real text
handling and proves what they keep.

`dafny verify dfyconfig.toml` checks everything. Each pair of files below is a model and the theorems about it.

| files | what they model |
|---|---|
| `text.dfy` | Python text primitives: `splitlines`, `strip`, `str(int)`, universal newlines |
| `unified_diff.dfy`, `diff_round_trip.dfy`, `diff_lines.dfy` | printing a unified diff (POSIX.1-2008 `diff`, "Diff -u or -U Output Format") and replaying it; every way to write one, and any text in its place |
| `file_editor.dfy` | edits with backups and patch records, and undoing them |
| `task_queue.dfy`, `task_queue_safety.dfy`, `queue_worker.dfy` | claiming and updating tasks over locked rows, as interleaved steps of any number of sessions; the worker |
| `skill_store.dfy`, `skill_store_safety.dfy`, `skill_decisions.dfy`, `skill_sessions.dfy` | skill versions, proposals, approvals by two routes, directory sync; what becomes of a proposal; publications by overlapping sessions |
| `env_line.dfy`, `env_pattern.dfy`, `env_file.dfy`, `env_file_meaning.dfy`, `env_file_structure.dfy`, `env_file_values.dfy`, `env_file_ends.dfy` | recognising, rewriting and loading env files; which values come back; lines that do not end in a newline |
| `harness_loop.dfy`, `harness_loop_safety.dfy` | the bounded action loop, its tools, cost guard and event log |
| `shell_words.dfy`, `shell_approval.dfy`, `shell_approval_safety.dfy` | the words of a command; classifying, approving and running shell commands |
| `conversation.dfy`, `conversation_safety.dfy` | the tool-calling conversation and its guardrails |
| `workspace.dfy`, `workspace_meaning.dfy`, `workspace_safety.dfy` | task workspaces and snapshots as regions of a file tree |
| `browser_refs.dfy` | numbering interactive elements and reading references back |

How it is built. Code that changes state is a class with methods (or a method with a loop), and each such method is
proved equal to a specification function of the old state; the theorems are about those functions, over all
inputs, all runs or all reachable states. Interleavings (queue sessions, shell processes, publications) are state machines whose
steps are the commits. What the outside world brings (the differ's alignment, a model's turn, a tool's outcome, a
clock, fresh names) is an argument that the theorems quantify over. Four parameters stand for code that is not
modelled and carry only the laws written beside them: `Config.encode`/`decode` (the JSON text of a patch record),
`eval` (`ast.literal_eval` on quoted text other than plain double-quoted literals; no law, but for `KeepsLines` in
`LoadsBackExactly`), `Library` (`mkdir`,
`rmtree`, `copytree`; `LibraryExists` shows the laws can be met), and `classify`, the rule search, which the shell
machine takes as any function and `ClassifyCommand` computes. `Syntax` does the same for one env line: the
rewriter's theorems hold for every lawful syntax and `EnvIsLawful` shows that the real one is.

## What is not as one might expect

Each of these is a behaviour of the code, kept in the model and stated as a lemma.

- A diff printed without context puts a pure insertion one line too early; `ReplayIsExact` gives the exact
  condition under which the result is right, and `MisplacedInsertion` a case where it is not. A trailing blank line is
  lost (`RoundTrip`). The target path of a patch loses its first `b/`, wherever it is (`TargetOfPrintedDiff`).
- Of a key assigned twice, loading an env file takes the last value and updating keeps the first
  (`UnrequestedKeys`, `UpdateKeepsTheFirst`). A value with a newline is written as two lines
  (`NewlineBreaksValue` shows one); `LoadsBackExactly` says which values survive. A rewritten line that ends in a form
  feed loses it and is joined to the next (`FormFeedJoinsLines`); `EndedUpdateMeaning` covers every file in which no
  rewritten line does so.
- A skill can be published although its approval now stands refused (`RefusedYetPublished`; `Provenance` says exactly
  when). Two sessions that publish different versions at once leave both active (`OverlappingPublications`;
  `OneActiveExactly` and `VersionedExactly` say exactly which runs do).
- Rejecting an approval after it was granted does not take it back (`RejectionDoesNotRevoke`). Two sessions that
  both read a tool call before either commits start its process twice (`OverlappingSessionsStartTwice`);
  `DecidedOnceExactly` and `StatusGuardIsExact` give the exact condition under which it starts once.
- A conversation that uses up its 40 turns is reported as completed (`BusyEndsCompleted`). `UnsaidExactly` says that
  these are the only completed runs whose model never said it was done, `ExhaustedExactly` and `ExhaustedTurns` what
  they look like.
- Events are numbered per run. Within a task that also has runs the task's own numbers can repeat
  (`TaskNumbersRepeat`, and `TaskNumbering` says exactly when); those of a run cannot (`RunsDoNotDisturb`).
- References to page elements count sixteen roles, the selector made from a reference lists ten
  (`SelectorFindsNode` gives the exact condition under which they agree).
- A `message` action has no registered tool and a failed completion is not caught: both leave the action loop by an
  exception, without a run summary (`MessageRaises`; `CrashedExactly` and `SummaryExactly` say exactly which runs do).

## Model

| member | source | states |
|---|---|---|
| `UnifiedDiff.ReplayHunks` | harness/file_editor.py:120-156 | the two nested loops over the lines of a diff compute the replay of its commands, every error and out-of-range read included |
| `UnifiedDiff.SkipPreamble` | harness/file_editor.py:120-121 | finds the first line that starts with `@@`, or the end |
| `UnifiedDiff.ApplyUnifiedDiff` | harness/file_editor.py:113-161 | applying a diff to a text gives the replayed lines with the text's newline rule, or the same error |
| `DiffRoundTrip.ReadsFormattedHeader` | harness/file_editor.py:124-128 | a printed hunk header reads back as the first line number of its old range, for all ranges |
| `DiffRoundTrip.ReadsHunks` | harness/file_editor.py:123-154 | printed hunks read back as the commands they stand for |
| `DiffRoundTrip.ReadsDiff` | harness/file_editor.py:75-87 | a printed diff splits into its printed lines, and the file header is skipped |
| `DiffRoundTrip.ReplayEdits` | harness/file_editor.py:133-154 | replaying one hunk at its place emits its new side and consumes its old side |
| `DiffRoundTrip.OneLineEarly` | harness/file_editor.py:128-131 | starting one line early only copies that line first |
| `DiffRoundTrip.ReplayIsExact` | harness/file_editor.py:113-156 | for every two line lists and every valid alignment in ordered hunks the replay succeeds with the right number of lines, and they are the new lines if and only if each pure insertion repeats the line above it |
| `DiffRoundTrip.AnchoredIsExact` | harness/file_editor.py:128-131 | with an old line in each hunk, or an empty old file, nothing is misplaced |
| `DiffRoundTrip.RenderedLines` | harness/file_editor.py:156-161 | rendered lines read back, except that a blank last line is lost |
| `DiffRoundTrip.RoundTrip` | harness/file_editor.py:75-161 | on texts: applying the printed diff never fails, and gives the new lines, and the new text, exactly under the stated conditions |
| `DiffRoundTrip.MisplacedInsertion` | harness/file_editor.py:128 | a concrete insertion without context lands one line early |
| `DiffLines.HeaderPattern` | harness/file_editor.py:13 | a line is taken for a header that shows a line number if and only if it has the pattern's form with that number |
| `DiffLines.WrittenRoundTrip` | harness/file_editor.py:113-161 | however the hunks are written down (an empty context line blank or as one space, remarks anywhere, counts left out, section headings, a preamble), applying the diff never fails and gives the new lines, and the new text, under the same exact conditions |
| `DiffLines.AnyDiff` | harness/file_editor.py:113-161 | any diff, line by line: the first line with something wrong (a bad header, a header past the end, context past the end, an unsupported sign) gives that error; without one the result is the lines made and the old lines left |
| `FileEditing.FileEditor.CreateBackup` | harness/file_editor.py:51-59 | copies the file's bytes under a new name in the patches directory, or does nothing for a missing file |
| `FileEditing.FileEditor.StorePatchRecord` | harness/file_editor.py:98-105 | writes the diff and the record |
| `FileEditing.FileEditor.WriteFile` | harness/file_editor.py:26-36 | afterwards the file holds exactly the content, the patches directory the diff, the record and the old bytes, and all else is as it was; the report tells path, id, diff and whether the text changed; a dry run reports the same and a path outside fails, both leaving the disk |
| `FileEditing.FileEditor.ExtractTargetPath` | harness/file_editor.py:107-111 | the path on the first `+++` line, or nothing |
| `FileEditing.FileEditor.ApplyPatch` | harness/file_editor.py:38-49 | the same for the file the diff names, with what the diff makes of its text; or the error that leaves the disk alone |
| `FileEditing.FileEditor.RollbackPatch` | harness/file_editor.py:61-73 | the file the record names gets its old bytes, or goes if it was new; every error case leaves the disk |
| `FileEditing.ChangeKeeps` | harness/file_editor.py:26-49 | a change touches one file outside the patches directory and only adds files inside it |
| `FileEditing.UndoOne` | harness/file_editor.py:61-73 | rolling one change back restores every other file, on any disk that still has the records |
| `FileEditing.UndoStack` | harness/file_editor.py:26-73 | for every run of edits, rolling the recorded patches back in reverse order succeeds and restores content and existence of every file |
| `FileEditing.TargetIsRead` | harness/file_editor.py:107-111 | of any diff the first `+++` line names the target: from its fifth character, without the space around it and without its first "b/" |
| `FileEditing.NoTarget` | harness/file_editor.py:107-111 | no target is found if and only if no line starts with `+++` |
| `Text.TextModeKeepsLines` | harness/file_editor.py:29 | reading a file in text mode changes no line |
| `FileEditing.TargetOfPrintedDiff` | harness/file_editor.py:107-111 | the path read from a printed diff is the path it was printed for if and only if it has no outer whitespace and no "b/" |
| `FileEditing.PatchEffect` | harness/file_editor.py:38-49 | a printed diff applied as a patch gives its file the new lines |
| `FileEditing.PatchAndRollback` | harness/file_editor.py:38-73 | print, patch and roll back: the new lines, then the old bytes |
| `TaskQueueSafety.StepKeeps` | db/task_queue.py:148-266 | every step of every session keeps the protocol invariant |
| `TaskQueueSafety.LatestRunIsLatest` | db/task_queue.py:154-163 | SKIP LOCKED skips no run of a task the session holds: the run it locks is the last attempt |
| `TaskQueueSafety.AttemptsExact` | db/task_queue.py:148-205 | in every reachable state a task's attempts are exactly 1..n for n claims, each once, and the unique constraint refuses no claim |
| `TaskQueueSafety.ClaimNumber` | db/task_queue.py:186-203 | the k-th claim of a task created attempt k |
| `TaskQueueSafety.PendingBetweenClaims` | db/task_queue.py:166-251 | between two claims of a task there is a committed update back to pending |
| `TaskQueueSafety.LockDiscipline` | db/task_queue.py:154-251 | no two sessions work on one task, and a run is locked only by the session that holds its task |
| `TaskQueueSafety.RunMirrorsTask` | db/task_queue.py:224-249 | in every committed state the last run has its task's status |
| `TaskQueueSafety.SettledExactly` | db/task_queue.py:186-237 | `completed_at` is set exactly in terminal states and a worker only while running, for exactly the tasks claimed, updated or created so |
| `QueueWorker.LatestRunChosen` | db/task_queue.py:154-163 | the run picked has the highest attempt of the task's runs, and nothing is picked only when there are none |
| `QueueWorker.SameOrder` | db/task_queue.py:129-145 | two listings of the same rows agree on priority and creation time at every place |
| `QueueWorker.ListingMeaning` | db/task_queue.py:129-145 | a listing has rows of the statuses and workspace asked for, each before what comes after it, and leaves out only what comes after all of as many as asked for |
| `QueueWorker.Queue.ClaimNextTask` | db/task_queue.py:166-205 | claims a pending row of the workspace asked for that comes before all others (more urgent, or as urgent and not younger), which then runs for the worker with a new run and the next attempt number; or changes nothing, and no such row is there |
| `QueueWorker.Queue.UpdateTaskStatus` | db/task_queue.py:208-251 | status, worker and times of the task, and status, times and error of its run with the highest attempt; every other row as it was |
| `QueueWorker.Queue.ProcessNext` | workers/main.py:28-61 | one round: one run is added, and it and its task end as the outcome says: failed with the exception's text, completed, paused, failed with the summary, or failed for an unknown status; nothing else changes |
| `QueueWorker.Queue.WorkerLoop` | workers/main.py:21-65 | a lone worker claims exactly the pending tasks, each once, in the order `list_task_queue` shows; the k-th claim adds the k-th new run, and each task and run ends as its outcome says, status and error |
| `QueueWorker.ClaimIsThreeSteps` | db/task_queue.py:166-205 | the three protocol steps of a claim do together what the method does |
| `QueueWorker.UpdateIsThreeSteps` | db/task_queue.py:208-251 | the three protocol steps of an update do together what the method does |
| `QueueWorker.PriorityIsTwoSteps` | db/task_queue.py:254-268 | the two protocol steps of a change of priority leave that priority and all else as it was |
| `SkillStore.ExactSkill` | db/skill_service.py:512-523 | the row of that name and version, or nothing when there is none |
| `SkillStore.LatestSkill` | db/skill_service.py:503-509 | a row of the highest version of the name, or nothing |
| `SkillStore.PendingProposal` | db/skill_service.py:526-544 | a pending proposal with that version and hash, or nothing |
| `SkillStore.ApprovalOf` | db/skill_service.py:547-556 | the latest approval of a proposal |
| `SkillStore.SkillService.PublishSkillDefinition` | db/skill_service.py:559-618 | supersedes the active versions and adds the new one, or refuses an old version or different content |
| `SkillStore.SkillService.CreateSkillProposalRecord` | db/skill_service.py:621-671 | adds a proposal and its approval, unless the unique constraint refuses |
| `SkillStore.SkillService.CreateSkillProposal` | db/skill_service.py:282-325 | proposes a newer version, or reports the pending proposal or the error |
| `SkillStore.SkillService.ReviewSkillProposal` | db/skill_service.py:328-371 | rejects, or publishes and marks as applied, with the approval; rolled back on an error |
| `SkillStore.SkillService.ApproveSkillProposal` | services/agent_learning_service.py:139-163 | the second route's approval |
| `SkillStore.SkillService.ActivateSkillProposal` | services/agent_learning_service.py:166-191 | publishes an approved proposal and marks it as activated |
| `SkillStore.SkillService.SyncSkillsFromDirectory` | db/skill_service.py:170-234 | the tables and the three label lists after a sync, or unchanged tables and the error |
| `SkillStoreSafety.ApplyKeeps` | db/skill_service.py:170-671 | every operation of both routes keeps the invariant of the tables |
| `SkillStoreSafety.OneActiveVersion` | db/skill_service.py:559-618 | in every reachable state a name with rows has exactly one active row, of the highest version |
| `SkillStoreSafety.VersionsAreImmutable` | db/skill_service.py:559-618 | over every run a version's content never changes, and a row only goes from active to superseded |
| `SkillStoreSafety.Provenance` | services/agent_learning_service.py:79-191 | every row but the lowest of its name has an applied or activated proposal with the same content, whose approval is granted if and only if nobody overruled it from outside |
| `SkillStoreSafety.NothingOverruled` | db/skill_service.py:328-371 | without refusals from outside nothing is overruled, so all those approvals are granted |
| `SkillStoreSafety.RefusedYetPublished` | services/agent_learning_service.py:166-191 | a run that publishes a version whose approval stands refused |
| `SkillStoreSafety.SyncSettles` | db/skill_service.py:170-234 | after a successful sync every definition is settled |
| `SkillStoreSafety.SyncIsIdempotent` | db/skill_service.py:170-234 | syncing again at once succeeds, changes no row and reports all as unchanged |
| `SkillStoreSafety.LabelsSplit` | db/skill_service.py:178-234 | the three lists a sync reports split the directory's labels, none lost and none twice |
| `SkillStoreSafety.CreatedExactly` | db/skill_service.py:178-215 | a definition is reported as created exactly when the tables had no row of its name and it is the first of its name |
| `SkillDecisions.ReviewDoes` | db/skill_service.py:328-371 | a review, told on the rows: a rejection leaves the skills, rejects the proposal and refuses its approval; an approval publishes; what is not pending or cannot be published changes nothing |
| `SkillDecisions.ApproveDoes` | services/agent_learning_service.py:139-163 | the second route approves a pending proposal and grants its approval, or changes nothing |
| `SkillDecisions.ActivateDoes` | services/agent_learning_service.py:166-191 | an approved or applied proposal is published, retiring the other versions of its name, or nothing changes |
| `SkillDecisions.CreateDoes` | db/skill_service.py:282-325 | a proposal is added if and only if it is newer than all rows of its name and the same was never proposed; by the second route, if and only if it was never proposed |
| `SkillDecisions.SyncOneDoes` | db/skill_service.py:178-231 | which of a sync's answers a definition gets, in terms of the rows |
| `SkillDecisions.CreateAnswer` | db/skill_service.py:287-321 | which answer or error a proposal gets, in terms of the rows |
| `SkillDecisions.SyncRefuses` | db/skill_service.py:104-118 | a directory with two definitions of one name and version is refused, any other is synced one by one |
| `SkillDecisions.PublishError` | db/skill_service.py:572-583 | a version that is there with other content, or is not newer, is not published, with that error |
| `SkillDecisions.ReviewError` | db/skill_service.py:333-347 | why a review is refused, and when it is not |
| `SkillDecisions.RouteError` | services/agent_learning_service.py:139-191 | why the second route refuses, and when it does not |
| `SkillDecisions.RejectedForGood` | db/skill_service.py:353-357 | over every run a proposal rejected in a review stays rejected and never stands behind a row |
| `SkillDecisions.PublishedWasApproved` | db/skill_service.py:328-371 | over every run a proposal that is approved or published was approved while pending, by one of the two routes |
| `SkillSessions.CommittedAlone` | db/skill_service.py:559-618 | a publication with no session in between does what the sequential one does |
| `SkillSessions.OverlappingRunsKeep` | db/models.py:301-302 | however publications overlap, no version of a name is there twice and the row added last is active |
| `SkillSessions.OneActiveExactly` | db/skill_service.py:585-593 | over all overlapping runs no name ever has two active versions if and only if each publication that adds a row saw all the active ones of its name |
| `SkillSessions.VersionedExactly` | db/skill_service.py:579-593 | versions always rise with only the highest active if and only if each such publication also is newer than all there are when it commits |
| `SkillSessions.OverlappingPublications` | db/skill_service.py:559-618 | a run from empty tables in which two sessions publish different versions and both stay active |
| `EnvLine.EscapeIsEach` | scripts/env_writer.py:122 | the two replacements in sequence escape each character once |
| `EnvLine.FormatMeaning` | scripts/env_writer.py:117-123 | which values are written as they are, as nothing, or quoted and escaped |
| `EnvLine.ValueRoundTrip` | scripts/env_writer.py:117-166 | decoding inverts formatting, for all values without line boundaries and NUL |
| `EnvLine.ReadsLine` | scripts/env_writer.py:9 | a prefix, a key and an equals sign are matched as that prefix and key, `export` prefixes and keys that begin like `export` included |
| `EnvPattern.LinePattern` | scripts/env_writer.py:9 | a line reads as a prefix and a key if and only if it has the pattern's form with them: space or space, `export` and space; a name; perhaps space; an equals sign |
| `EnvLine.MatchParts` | scripts/env_writer.py:9 | whatever matches has a prefix and a key of the pattern's form |
| `EnvLine.ReadsRendered` | scripts/env_writer.py:96-97 | a written assignment reads back as its prefix, key and value |
| `EnvLine.NewlineKeepsLine` | scripts/env_writer.py:101-102 | a newline at the end changes neither match nor value |
| `EnvLine.EnvIsLawful` | scripts/env_writer.py:89-97 | reading and writing env lines obeys all the laws the rewriter relies on |
| `EnvFile.EnvPath.ParseEnvValues` | scripts/env_writer.py:143-152 | the dictionary holds exactly the assigned keys, each with its last value |
| `EnvFile.EnvPath.FindDuplicateKeys` | scripts/env_writer.py:37-53 | the loop computes the keys seen again, in order; nothing without a file |
| `EnvFile.EnvPath.Rewrite` | scripts/env_writer.py:64-100 | the pass in place over the lines, and its bookkeeping, compute the specified pass |
| `EnvFile.EnvPath.Append` | scripts/env_writer.py:101-106 | the newline fix and the appended assignments |
| `EnvFile.EnvPath.UpdateEnvFile` | scripts/env_writer.py:56-114 | the text stored and the report, from the env file or the example file |
| `EnvFileMeaning.ScanKey` | scripts/env_writer.py:72-98 | what the pass makes of one key: dropped once seen, else resolved from first value and request |
| `EnvFileMeaning.SplitIsPlain` | scripts/env_writer.py:132-140 | plain text is cut into lines that make the text again |
| `EnvFileMeaning.SplitOfConcat` | scripts/env_writer.py:108 | joined lines split into the same lines |
| `EnvFileMeaning.UpdateMeaning` | scripts/env_writer.py:56-152 | after an update, loading gives each requested key its new value (or its non-empty first value when preserving) and every other key its first old value |
| `EnvFileMeaning.FileUpdateMeaning` | scripts/env_writer.py:56-152 | the same for the stored files, with the example file and text-mode reading |
| `EnvFileMeaning.UnrequestedKeys` | scripts/env_writer.py:77-87 | an unrequested key loads the same before and after if and only if its first and last values agree |
| `EnvFileMeaning.UpdateKeepsTheFirst` | scripts/env_writer.py:77-83 | a doubly assigned key loads as the second value before and as the first after |
| `EnvFileStructure.DuplicatesExactly` | scripts/env_writer.py:37-53 | the reported keys are exactly those assigned more than once |
| `EnvFileStructure.NoDuplicatesLeft` | scripts/env_writer.py:78-83 | an update reports as removed exactly what `find_duplicate_keys` found, and leaves none |
| `EnvFileStructure.OtherLinesStay` | scripts/env_writer.py:72-106 | lines that assign nothing keep content and order |
| `EnvFileStructure.ReportPartition` | scripts/env_writer.py:66-106 | every requested key is reported exactly once, as updated or as preserved, and no other |
| `EnvFileStructure.PreservedExactly` | scripts/env_writer.py:89-93 | a key is preserved exactly when asked for, requested, and its first value is not empty |
| `EnvFileStructure.UpdateIsIdempotent` | scripts/env_writer.py:56-114 | repeating an update, preserving or not, leaves the text identical |
| `EnvFileStructure.NewlineBreaksValue` | scripts/env_writer.py:117-123 | a value of two parts of safe characters with a newline between them is written as two lines and loads as an opening quote and its first part |
| `EnvFileValues.LoadsBackExactly` | scripts/env_writer.py:108-166 | a value without NUL, written to a new file, loads as it was if and only if it has no line boundary, when `ast.literal_eval` makes one line of one line |
| `EnvFileValues.UnquotedLoadsBack` | scripts/env_writer.py:108-166 | the same for a value without quotes, whatever `ast.literal_eval` does |
| `EnvFileEnds.EndedUpdateMeaning` | scripts/env_writer.py:56-115 | the meaning of an update for files whose lines end in any way `splitlines` knows, when each rewritten line ends in a newline or is the last |
| `EnvFileEnds.FormFeedJoinsLines` | scripts/env_writer.py:95-97 | a rewritten line that ended in a form feed is joined to the next, whose key is lost |
| `HarnessLoop.EventStore.Append` | db/repositories.py:138-182 | the new row has the next number of its run, or of its task |
| `HarnessLoop.Harness.ExecuteAction` | harness/tool_executor.py:64-139 | the events logged and the observation by verdict and handler outcome: a denied action logs its call and one error and runs nothing |
| `HarnessLoop.Harness.Iterate` | harness/loop.py:56-122 | one iteration by what it meets: the time limit, the budget, a failed completion, no action, `finish`, or a tool and what it came to; its events, calls, variables and return |
| `HarnessLoop.Harness.RunTask` | harness/loop.py:35-141 | the log, the model calls and the result of a whole run |
| `HarnessLoopSafety.ExecutedWalks` | harness/tool_executor.py:85-139 | a tool call ends in exactly one result, error or approval request, with its own event before |
| `HarnessLoopSafety.RunWalks` | harness/loop.py:54-141 | every run follows the trace grammar, which counts the errors since the last result and ends the run at the limit |
| `HarnessLoopSafety.TraceGrammar` | harness/loop.py:54-141 | a run that returns ends with its one summary, with the returned status and text; one that raises has none |
| `HarnessLoopSafety.IterationCrashes` | harness/tool_executor.py:85-139 | an iteration raises exactly when, within time and budget, the completion fails, an approval is wanted and none was opened, the tool is not registered, or logging the finished call fails |
| `HarnessLoopSafety.CrashedExactly` | harness/loop.py:54-124 | a run raises if and only if one of the iterations it reaches does |
| `HarnessLoopSafety.SummaryExactly` | harness/loop.py:54-141 | a trace ends with its summary if and only if no iteration reached raises |
| `HarnessLoopSafety.MessageRaises` | harness/tool_executor.py:111-112 | a `message` action in the first turn leaves a thought and a call in the trace, and raises |
| `HarnessLoopSafety.LoggedIsNumbered` | db/repositories.py:138-182 | logging in a scope takes its next number |
| `HarnessLoopSafety.ListedInOrder` | db/repositories.py:185-201 | listing a numbered scope gives the events in the order they were logged |
| `HarnessLoopSafety.FreshRun` | harness/loop.py:45-52 | a fresh run lists as the user message and its trace, numbered 1..n, whatever else the table holds |
| `HarnessLoopSafety.ResumedRun` | harness/loop.py:45-52 | a run with a history continues its numbers without a second user message |
| `HarnessLoopSafety.RunsDoNotDisturb` | db/repositories.py:138-201 | however runs interleave, each lists as its own events, in order, numbered 1..n |
| `HarnessLoopSafety.TaskNumbersRepeat` | db/repositories.py:144-149 | a task's own numbering need not be 1..n when the task has runs |
| `HarnessLoopSafety.TaskNumbering` | db/repositories.py:138-182 | where a run belongs to one task, a task's events are numbered 1..n if and only if no run's event follows an event of the task outside that run |
| `HarnessLoopSafety.RunIsGuarded` | harness/model_adapter.py:60-67 | before every model call the spending was below the limit; at most one call per iteration; iterations within the maximum |
| `HarnessLoopSafety.CostBound` | harness/loop.py:78-79 | a run exceeds the cost limit by less than its last call |
| `HarnessLoopSafety.AfterTheGuard` | harness/model_adapter.py:61-67 | once the guard trips no call is made and the run ends failed within the iterations its error streak leaves |
| `ShellApproval.MatchRule` | tools/shell_command.py:232-236 | the first rule that matches, or nothing when none does |
| `ShellApproval.ClassifyCommand` | tools/shell_command.py:188-230 | the loops compute the classification, with the meaning below |
| `ShellWords.RulesSee` | tools/shell_command.py:189-196 | the rules see the command's words, less a first `sudo` that others follow, with one space between each two |
| `ShellWords.SplitHasWords` | tools/shell_command.py:189 | every text has words in that sense, and they are those it is split into |
| `ShellWords.SpacedHasWords` | tools/shell_command.py:189 | the joined words have those words again |
| `ShellApproval.ClassifiedMeaning` | tools/shell_command.py:188-230 | on the command's words: a blocked rule wins; else safe, dangerous, high and medium rules decide in this order; the first rule of the deciding list gives reason and name |
| `ShellApproval.SameAssessment` | tools/shell_command.py:189-196 | spacing, or one `sudo` in front of a command that does not start with one to lose, changes nothing about the assessment |
| `ShellApproval.ShellCommandTool.SubmitCommand` | tools/shell_command.py:91-147 | one more call, blocked with its reason, waiting with an approval requested, or run, its process included; nothing without the task |
| `ShellApproval.ShellCommandTool.ExecuteApprovedToolCall` | tools/shell_command.py:149-186 | the call is blocked with its reason, waits for an approval it does not have, or runs; one that is not waiting, pending or blocked stays |
| `ShellApproval.ShellCommandTool.ExecuteToolCall` | tools/shell_command.py:273-323 | the start of the process and the row after it: completed on exit code 0, failed on another, timed out, or left running when the report is lost |
| `ShellApproval.ShellCommandTool.ApproveCommand` | gateways/service.py:402-411 | an approval and the mark on its call |
| `ShellApproval.ShellCommandTool.RejectCommand` | harness/tool_executor.py:354-363 | a rejected approval, the call untouched |
| `ShellApprovalSafety.StepIsSound` | tools/shell_command.py:91-323 | every step of every run, its sessions overlapping or not, keeps commands, marks a call only by an approval, and readies only what it cleared |
| `ShellApprovalSafety.StartsAtMostOnce` | tools/shell_command.py:143-186 | as long as each execution commits on a row it may still execute, a process was started at most once, never while blocked or waiting, once when there is a result |
| `ShellApprovalSafety.DecidedOnceExactly` | tools/shell_command.py:149-186 | over all overlapping runs a call is decided at most once if and only if each execution that passes its guards commits before the call was decided |
| `ShellApprovalSafety.LateExecutionStartsTwice` | tools/shell_command.py:150-186 | an execution that passes its guards after the call was decided leads, once its launches succeed, to two starts |
| `ShellApprovalSafety.StatusGuardIsExact` | tools/shell_command.py:152-183 | the next execution to pass its guards leaves the call decided once if and only if the row's status still lets it |
| `ShellApprovalSafety.ResultsAreFinal` | tools/shell_command.py:149-153 | completed, failed and timed-out rows do not change again, under the same guard |
| `ShellApprovalSafety.StartIsJustified` | tools/shell_command.py:155-183 | however sessions overlap, a process starts only after a step at which its directory was allowed and its command not blocked, and safe or approved at that moment |
| `ShellApprovalSafety.ApprovedExactly` | tools/shell_command.py:339-349 | a call counts as approved exactly when a reviewer approved it before |
| `ShellApprovalSafety.RiskyStartsNeedApproval` | tools/shell_command.py:155-183 | a started command is not blocked, and one that needs approval starts only after one |
| `ShellApprovalSafety.StartsObeyTheRules` | tools/shell_command.py:188-230 | the same in terms of the command's words and the rule lists: no blocked rule matches a started command, and a risky one without a safe rule was approved before |
| `ShellApprovalSafety.RejectionDoesNotRevoke` | tools/shell_command.py:341-342 | a rejection after an approval leaves the call approved |
| `ShellApprovalSafety.OverlappingSessionsStartTwice` | tools/shell_command.py:150-186 | a run from empty tables, submit, approve and two sessions that read before either commits, starts a process twice |
| `Conversation.ToolCallGuardrails.RecordSuccess` | agent/model_client.py:144-146 | counts a call and ends the streak |
| `Conversation.ToolCallGuardrails.RecordFailure` | agent/model_client.py:148-151 | counts a call, the streak and the signature |
| `Conversation.History.AddAssistantToolCalls` | agent/model_client.py:98-113 | one message with all the calls |
| `Conversation.History.AddToolResult` | agent/model_client.py:115-121 | one result, cut to 8000 characters |
| `Conversation.AgentNodes.ExecuteCalls` | agent/nodes.py:272-338 | the inner loop with its three exits: answers, guardrails and end |
| `Conversation.AgentNodes.ExecuteStep` | agent/nodes.py:228-349 | status, summaries and history of the whole loop, and the histories the model was asked with |
| `ConversationSafety.AnswersMatch` | agent/nodes.py:272-338 | the answers match the calls in order, all of them or up to the first terminal call |
| `ConversationSafety.AnswersSay` | agent/nodes.py:280-306 | each answer says what its call came to: a terminal tool's own text, or the tool's text, with the hint when it waits for approval, 8000 characters at most |
| `ConversationSafety.ConversationProtocol` | agent/nodes.py:242-254 | whenever the model is asked the history is system, user and fully answered blocks; at most 40 turns |
| `ConversationSafety.LeftInProtocol` | agent/nodes.py:242-338 | the history left follows the protocol too, but for the block a terminal call cut |
| `ConversationSafety.GuardMeaning` | agent/model_client.py:144-173 | the counters are the number of calls, the streak and the failures; when the guardrails halt, and for which reason, in these terms |
| `ConversationSafety.RecordMeaning` | agent/nodes.py:328-332 | a failed call is recorded by its name and the first 100 characters of its arguments, any other as good |
| `ConversationSafety.AnswersRecord` | agent/nodes.py:272-338 | the guardrails after a turn are those of the records of the run's calls, one for each |
| `ConversationSafety.RunEnds` | agent/nodes.py:242-338 | a run ends as the first turn that does not go on says: halted on its records, by text, or by its first terminal call with that call's text |
| `ConversationSafety.ExhaustedExactly` | agent/nodes.py:242-246 | the 40 turns run out if and only if each makes calls, none terminal, and the records before it do not halt |
| `ConversationSafety.ExhaustedTurns` | agent/nodes.py:242-246 | in terms of calls that is 39 turns of one call and one of one or more, none terminal, never 5 failures in a row nor the last six of at most two calls |
| `ConversationSafety.FinalStatusMeaning` | agent/nodes.py:237-338 | in terms of the model's turns: failed exactly when a turn reached halts or first ends by `task_failed`; completed exactly when one makes no call or first ends by `task_complete`, or all 40 go on |
| `ConversationSafety.UnsaidExactly` | agent/nodes.py:237-242 | a completed run whose model never said it was done is one whose 40 turns all went on, and no other |
| `ConversationSafety.SummaryMeaning` | agent/nodes.py:237-325 | status, summary and recorded summaries by how the run ended |
| `ConversationSafety.BusyEndsCompleted` | agent/nodes.py:237-242 | a run that never says it is done is reported as completed |
| `Workspace.WorkspaceManager.CreateTaskWorkspace` | harness/workspace.py:47-62 | the tree and record after making the layout, or the exception half-way |
| `Workspace.WorkspaceManager.CleanupWorkspace` | harness/workspace.py:71-75 | the tree without the workspace |
| `Workspace.WorkspaceManager.SnapshotWorkspace` | harness/workspace.py:77-84 | the tree with the copy, or the failure for a taken id |
| `Workspace.WorkspaceManager.RestoreSnapshot` | harness/workspace.py:86-95 | the tree with the workspace replaced, or the failure |
| `WorkspaceMeaning.CreatedMeaning` | harness/workspace.py:47-62 | making a workspace succeeds if and only if no file is in the way of any of its directories, and then leaves exactly these, the event file, the record, and all else as it was |
| `WorkspaceMeaning.CleanedMeaning` | harness/workspace.py:71-75 | cleaning up takes away exactly what is in the workspace, if that is not a file |
| `WorkspaceMeaning.SnapshottedMeaning` | harness/workspace.py:77-84 | exactly when a snapshot succeeds |
| `WorkspaceMeaning.RestoredMeaning` | harness/workspace.py:86-95 | exactly when a restore succeeds, and the record after it |
| `WorkspaceSafety.ApplyAllCloses` | harness/workspace.py:47-95 | over every run of operations and edits, whatever exists has its parents |
| `WorkspaceSafety.OtherWorkspacesStay` | harness/workspace.py:47-95 | no operation on one task touches another task's workspace |
| `WorkspaceSafety.SnapshotsStay` | harness/workspace.py:77-95 | no operation touches a snapshot there is |
| `WorkspaceSafety.TakenId` | harness/workspace.py:80-82 | a snapshot under a taken id fails and leaves the old one |
| `WorkspaceSafety.SnapshotHolds` | harness/workspace.py:77-84 | a snapshot holds what the workspace held and leaves it |
| `WorkspaceSafety.RestoreMakesEqual` | harness/workspace.py:86-95 | restoring makes the workspace equal to the snapshot and leaves everything else |
| `WorkspaceSafety.SnapshotRoundTrip` | harness/workspace.py:77-95 | after a snapshot and any later operations and edits, restoring brings the workspace back and leaves everything else |
| `BrowserRefs.Snapshot.WalkTree` | tools/browser_tool.py:313-350 | the recursive walk appends the specified lines and advances the counter |
| `BrowserRefs.NodeIsShown` | tools/browser_tool.py:322-346 | the text of a node's line: indent, reference, role and label, or role and name, or none |
| `BrowserRefs.RolesOfPage` | tools/browser_tool.py:327-344 | the sixteen roles with references and the seven of a compact snapshot |
| `BrowserRefs.WalkNumbers` | tools/browser_tool.py:337-350 | the references given are the interactive nodes in preorder, numbered on |
| `BrowserRefs.CompactIsFiltered` | tools/browser_tool.py:344-346 | a compact snapshot is the full one without other plain lines, with the same references |
| `BrowserRefs.RefRoundTrip` | tools/browser_tool.py:352-362 | a printed reference reads back as the index before its number |
| `BrowserRefs.ReferencePattern` | tools/browser_tool.py:357-362 | a text is read as a reference if and only if it is an `e` and a number, perhaps behind at signs and before other text |
| `BrowserRefs.ReferencesNameNodes` | tools/browser_tool.py:313-367 | in full and compact form the k-th reference is `@ek`, names the k-th interactive node in preorder, and reads as k - 1 |
| `BrowserRefs.SelectorFindsNode` | tools/browser_tool.py:363-367 | counted over the selector's ten roles the index names the same node if and only if no node up to it has one of the six other roles |

## Left out

- difflib's choice of alignment: every alignment cut into ordered hunks is allowed instead.
- `DiffRoundTrip.ReplayIsExact`: a hunk after a pure insertion starts at least one line further on, as in every grouping
  in which hunks that touch are one hunk.
- Digits in hunk headers and references are ASCII; Python's `\d` takes other decimal digits too.
- Path resolution (`Path.resolve`, symbolic links) is a parameter of the file editor; directories made on the way are
  not in its disk. Workspace paths are resolved components, and a snapshot id is one component.
- JSON, UUIDs, clocks, YAML and hashing: a patch record's text is any invertible encoding, fresh names and times are
  arguments, a skill definition carries the digest of its content.
- Database sessions: a queue session holds row locks as SKIP LOCKED gives them and commits atomically; the ORM's
  identity map is not modelled, each operation using a fresh session as its callers do.
- `QueueWorker.Queue.WorkerLoop`: covers a worker with no other writer; it stops at the first empty poll, where the
  source sleeps and polls again, because an endless loop has no result to state.
- Other priorities than the five known names and other statuses are refused before a row is touched
  (db/task_queue.py:33-42) and have no constructor here.
- `SkillStore.SkillService.SyncSkillsFromDirectory`: one operation at a time, as are the other operations of the class;
  of sessions that overlap on the skill tables only publications are modelled (`SkillSessions.OverlappingRunsKeep`).
- Sub-agent proposals, learning events, skill search and scoring: none of them changes skill rows.
- `EnvLine.ValueRoundTrip`: values with a line boundary or NUL are outside it, because such a value is not
  one line of the file; `LoadsBackExactly` shows that none with a boundary comes back. What becomes of a NUL is up to
  `ast.literal_eval`.
- `EnvFileMeaning.UpdateMeaning`: the file's only line terminator is `\n`; `EndedUpdateMeaning` is the statement
  for the others.
- `ensure_env_file` and the choice of the example file's path.
- Prompts, the wording of a run's first message, tool descriptions, redaction of secrets in events, the exported JSONL file and the wording of hints: text
  that no modelled branch reads.
- `HarnessLoop.Harness.ExecuteAction`: what a tool does is an outcome given to it; the rows of logged tool calls are
  not kept. Exceptions before the first event (an unknown task, an unmakeable workspace) are not runs here.
- `ShellApprovalSafety.StartsAtMostOnce`: holds under the guard that the row may still be executed when an execution
  commits, which the code does not enforce; the exact condition is `DecidedOnceExactly`.
- `ShellApprovalSafety.StepIsSound`: an execution writes its status even where that equals what it read, which the ORM
  would leave out.
- The regular expressions of the shell and policy rules are predicates; truncation of output is not modelled.
- `Conversation.AgentNodes.ExecuteStep`: tool arguments are objects whose `summary` and `reason` are text, and
  progress reports do not fail. The legacy step executor is not part of this model.
- `Workspace.WorkspaceManager.CreateTaskWorkspace`: file metadata, `last_used_at` and a manager without a database are
  not modelled; nor are `copy_repo_to_workspace` and `clone_repo_to_workspace`.
- `BrowserRefs.SelectorFindsNode`: reads the selector as its comment does, the n-th element of the listed roles;
  Playwright's own evaluation, visibility included, is not part of this model.
- Gateways, budget service, model fallback, installers, setup and migrations.
