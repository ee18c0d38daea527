# agent-builder: verified core

A Dafny model of the parts of agent-builder whose correctness depends on more than one function at a time, with
proofs of what they promise. `dafny verify dfyconfig.toml` checks all of it. Nothing here runs the Go program.

| file | models |
|---|---|
| `Json.dfy` | the JSON text of journal lines and snapshots, and what a cut or a glued line can parse to |
| `Journal.dfy` | the durable journal: journal bytes, snapshot, temporary file, crashes at any byte and between any two disk steps |
| `History.dfy` | whole histories of the journal, whatever state crashes leave the disk in |
| `RunStore.dfy` | `runstore.FileStore` and its records |
| `MemoryGuard.dfy` | `memoryguard.DurableStore`: the same journal behind a write gate and a read gate |
| `Plans.dfy`, `Planner.dfy` | plans, the plan-derived allow set, the structured planner, bounded reevaluation |
| `RunJournal.dfy` | the locked load-modify-save writers of the orchestrator |
| `Fleet.dfy`, `FleetTrace.dfy` | plans dispatched concurrently under one worker cap, with approval pauses, crashes and resumes |
| `FleetOutcome.dfy` | why a worker of those plans reports what it reports, and what its steps leave in the run journal |
| `FleetResume.dfy`, `FleetOverlap.dfy` | when resuming an interrupted plan is safe, in both directions |
| `Completion.dfy` | the goal-level attempt budget of `RunToCompletion` |
| `Semaphore.dfy` | the worker semaphore |
| `Order.dfy`, `Router.dfy`, `Quota.dfy` | the executor registry, selection order, quota, recovery, saved state |
| `Retry.dfy` | one retried dispatch: attempts, recorded usage, escalation |
| `Overrun.dfy` | where retry and quota meet: attempts past an entry's limit |
| `ReplayCache.dfy` | the nonce cache of the envelope layer |
| `Telegram.dfy` | the poll and offset loop of the chat channel |
| `StatusWriter.dfy` | the status-line rewriter |
| `Supervisor.dfy` | the lifecycle of one boxed run |

How to read it. Code that updates things in place is a class with methods; each method is proved against a function
of the old state, and the lemmas are about those functions. A protocol is a total function `Next(state, action)` in
which the action carries every choice the environment makes (the scheduler, failing writes, policy verdicts, crashes),
a run is a sequence of actions, and the main results quantify over all of them. `Next` never gets stuck: an action that
is not due changes nothing.

Where the code does something other than its comments, or than the obvious claim, the model follows the code:

- A torn final journal line is dropped on replay but stays in the file, and the next append is glued to it.
  `Journal.AppendReopensIff` gives the exact boundary for one append and `History.RunRecovers` for whole histories;
  `FileStore.Compact` repairs the disk. The guarded store has the same boundary (`MemoryGuard.RunSound`), but nothing
  its gate did not accept ever comes out of it, torn or not (`MemoryGuard.RunGated`).
- A write that fails in a process that goes on can leave its record on disk (`History.FailedMaySurface`) or tear the
  journal with no crash; both are steps of the histories.
- `saveAttemptCount` swallows its error, so the attempt budget can be exceeded. `Completion.BudgetEquation` accounts for
  every call, `Completion.BudgetHolds` derives the budget from no process ending with the stored counter behind its own,
  and `Completion.LostSavesCostCalls` shows that otherwise there is no bound.
- Overlapping resumes of one goal can dispatch a completed sub-goal again; `FleetOverlap.OverlapFromStart` reaches it from
  an initial state. `FleetOverlap.ResumeSafeIff` gives the exact condition: a resume is safe if and only if no worker of
  the goal can still write its attempt, or the goal awaits approval. The daemon resumes before it serves anything else
  (`internal/cli/daemon.go:154-163`), which is such a moment.
- Quota can be overrun: when the router has no entry left, the escalation hook keeps the current one, and its attempts
  are charged past the limit. `Overrun.OverQuotaIff` says exactly which attempts those are, and
  `Overrun.KeptPastItsLimit` gives a run with any number of them.
- A nonce that comes back with a later timestamp after it was evicted is accepted a second time.
  `ReplayCaches.ForgettingShowsIff` says exactly when, over whole runs.
- An entry under the empty ID would never be found by a lookup (`Quota.EmptyIdUntouched`); the loader makes no such entry
  (`internal/registry/loader.go:51-67`).
- The semaphore's field comment says the channel holds free permits; the code sends on acquire, so it holds taken ones.
- `OnGateFailure` is described as climbing to a stronger entry; what it reaches is the next entry in cost order.
- `needs-human` is not a terminal status, so such a goal stays in `ListInFlight`.

## Model

| member | source | states |
|---|---|---|
| Json.RoundTrip | internal/runstore/filestore.go:142-147 | reading the encoding of any value gives the value back and stops exactly at its end, whatever follows, as long as that does not start with a digit |
| Json.NoControl | internal/runstore/filestore.go:142-147 | no encoding contains a newline or any other control character, so a record is one line |
| Json.GlueParsesIff | internal/runstore/filestore.go:128-148 | however many pieces of lines are glued together, the text parses exactly when it is one whole line |
| Json.CutNeverParses | internal/runstore/filestore.go:128-133 | no strict prefix of a journal line's text parses, so a torn line cannot pass for a record |
| Json.GluedNeverParses | internal/runstore/filestore.go:128-148 | a non-empty prefix of one line, or all of it, with another line glued on does not parse either |
| Journal.ReplayIdempotent | internal/runstore/filestore.go:67-73 | replaying a journal over an index that already contains it changes nothing, tombstones included |
| Journal.CrashRecovers | internal/runstore/filestore.go:77-265 | every disk image visible at any byte of an append or between any two steps of a compaction reopens to the index before or after that operation |
| Journal.OpCompletes | internal/runstore/filestore.go:142-265 | a completed operation leaves index and disk in agreement and the journal newline-terminated |
| Journal.AppendReopensIff | internal/runstore/filestore.go:101-164 | a journal that any number of cut appends left behind reopens; after one further append it reopens if and only if it was newline-terminated, and otherwise never again, whatever is appended |
| Journal.SplitRejoins | internal/runstore/filestore.go:115-119 | splitting on newlines gives newline-free pieces that joined by newlines are the text |
| Journal.Replay | internal/runstore/filestore.go:101-139 | the line loop computes the fold of the journal's entries, failing exactly on an undecodable line that is not a torn last one |
| Journal.LineInPlace | internal/runstore/filestore.go:115-139 | a complete line, wherever it stands: a blank one changes nothing, an undecodable one fails the replay, any other is one entry in its place |
| Journal.FreshDisk | internal/runstore/filestore.go:77-109 | no snapshot or an empty one and no journal open to nothing, and the temporary file is never read |
| Journal.WriteSnapshot | internal/runstore/filestore.go:228-236 | the snapshot text reads back to exactly the index, every member under its own key |
| Journal.LoadSnapshot | internal/runstore/filestore.go:77-99 | the snapshot is folded member by member; a missing or empty file is an empty index |
| Journal.Disk.AppendJournal | internal/runstore/filestore.go:148-164 | an append adds the bytes up to where it stops, and every image seen on the way is the old journal with a prefix of the line |
| Journal.Disk.WriteTmp | internal/runstore/filestore.go:236-254 | only the temporary file changes, and every image on the way holds a prefix of the text in it |
| Journal.Disk.RemoveTmp | internal/runstore/filestore.go:243-259 | a failed compaction takes its temporary file away and touches nothing else |
| Journal.Disk.RenameTmp | internal/runstore/filestore.go:256-259 | the snapshot becomes the temporary file in one step, with the journal untouched |
| Journal.Disk.TruncateJournal | internal/runstore/filestore.go:261-263 | the journal is emptied in one step, with the snapshot untouched |
| Journal.Disk.Compact | internal/runstore/filestore.go:228-265 | every image seen is one of the four stages of a compaction, for every point of failure |
| History.StepKept | internal/runstore/filestore.go:43-265 | one operation, finished, failed or cut by a crash, on a disk in any state: a reopen fails exactly when a whole line was appended to a journal that was not newline-terminated since it was last emptied, and the index stays traced to the disk |
| History.RunReopensIff | internal/runstore/filestore.go:43-265 | after any history, failed writes included, the disk reopens exactly when no whole line was appended to a torn journal since it was last emptied; and then to the index in memory, unless an append failed since the last reopen or finished compaction |
| History.RunRecovers | internal/runstore/filestore.go:43-265 | after any history of operations, failed writes, crashes and reopens the index is the acknowledged operations in order plus possibly, for each crash, the one in flight and the failed ones before it; what the disk reopens to is that with the failed ones since possibly among them |
| History.FailedMaySurface | internal/runstore/filestore.go:152-163 | a record whose append failed after its last byte is on disk all the same, so the failed ones have to be allowed for |
| RunStore.RecordRoundTrip | internal/runstore/record.go:55-95 | any record survives encoding and decoding, attempts, pending approvals and nested plan included |
| RunStore.OpenWellKeyed | internal/runstore/filestore.go:43-140 | whatever is on disk, an opened index has every record under its own goal and no tombstone |
| RunStore.AppendRecovers | internal/runstore/filestore.go:142-222 | a save or delete, cut at any byte, reopens to the map before or after it |
| RunStore.TornAppendRefused | internal/runstore/filestore.go:101-164 | one more whole record on a disk that opens: it opens again exactly when the journal was newline-terminated |
| RunStore.FileStore.OpenStore | internal/runstore/filestore.go:43-59 | opening fails exactly when the files do not read, and otherwise yields an index in step with the disk |
| RunStore.FileStore.Write | internal/runstore/filestore.go:142-222 | the index changes only when the line was written whole, and every disk image on the way recovers |
| RunStore.FileStore.Save | internal/runstore/filestore.go:168-183 | the goal's record becomes the given one, only its creation time (when unset) and its update time stamped; a deleted record takes its goal out; every other goal stays; in the index, in what a reopen yields, and recoverably at every instant |
| RunStore.FileStore.Delete | internal/runstore/filestore.go:213-222 | a delete removes exactly that goal, durably, also for an unknown goal |
| RunStore.FileStore.Load | internal/runstore/filestore.go:185-193 | a loaded record is the goal's own, never a tombstone, and, with index and disk in step, what a reopen would find |
| RunStore.FileStore.ListInFlight | internal/runstore/filestore.go:197-209 | the list holds exactly the records that are neither completed nor failed and is strictly increasing by goal ID, so the index alone decides it |
| RunStore.FileStore.Compact | internal/runstore/filestore.go:228-265 | whichever disk step fails, a reopen yields the same index at every instant; success makes the disk reopen to the index whatever was on it before |
| MemoryGuard.LineRoundTrip | internal/memoryguard/durable_store.go:40-51 | a guarded line decodes to the entry it was written for |
| MemoryGuard.ActGated | internal/memoryguard/durable_store.go:89-297 | every call, finished, failed or crashed and reopened, on a disk in any state, keeps every value in the index, the snapshot, the lines and the pieces of lines an accepted one |
| MemoryGuard.RunGated | internal/memoryguard/durable_store.go:89-297 | in every reachable state, crashes, failed writes and torn journals included, every value in the index and every value any successful open yields was accepted by the write gate |
| MemoryGuard.RunSound | internal/memoryguard/durable_store.go:89-297 | in every state of every run, failed writes included, the disk fails to reopen exactly when a line was appended to a torn journal since it was last emptied; otherwise it reopens to exactly the index, unless an append failed since the last reopen or finished compaction |
| MemoryGuard.FinishReopensIff | internal/memoryguard/durable_store.go:153-257 | after a finished append on a disk in step with the index, torn or not, the disk reopens to the new index exactly when the journal was newline-terminated |
| MemoryGuard.DurableStore.OpenStore | internal/memoryguard/durable_store.go:65-83 | opening fails exactly when the files do not read, and otherwise yields an index in step with the disk |
| MemoryGuard.DurableStore.Write | internal/memoryguard/durable_store.go:153-175 | the append behind put and delete: index, machine step, every image and the reopen boundary, for every point where it may fail |
| MemoryGuard.DurableStore.Put | internal/memoryguard/durable_store.go:180-198 | a denied put changes neither disk nor index; an accepted one succeeds exactly when its line is written whole and is a step of the guarded machine, finished or failed; every image on the way yields accepted values only; on success the disk reopens to the index exactly when it was not torn |
| MemoryGuard.DurableStore.Get | internal/memoryguard/durable_store.go:217-230 | the stored value comes back exactly for a known key that the read gate allows now, and it is an accepted one; an unknown key asks no gate |
| MemoryGuard.DurableStore.Delete | internal/memoryguard/durable_store.go:236-257 | the entry goes durably whatever the tamper check says, and only then is tampering reported; every image on the way yields accepted values only, and on a disk that is not torn the index before or after |
| MemoryGuard.DurableStore.Compact | internal/memoryguard/durable_store.go:262-297 | compaction is a step of the guarded machine, never changes what a reopen yields, keeps every value any image yields accepted, and when it succeeds repairs a torn disk |
| Plans.DedupSpec | internal/orchestrator/orchestrator.go:102-123 | the allow set is the non-empty declared names, each once, in order of first occurrence |
| Plans.AllowedResources | internal/orchestrator/orchestrator.go:102-123 | the three passes with a seen-set compute that list |
| Plans.AuthorizesIff | internal/orchestrator/orchestrator.go:126-133 | a plan authorizes exactly its goal, its recipes and its task IDs, and never the empty name |
| Plans.PlanRoundTrip | internal/orchestrator/runstore.go:23-50 | a journalled plan reads back as the same plan |
| Planner.Trimmed | internal/orchestrator/planner.go:80-83 | trimming drops blanks at both ends, nothing else, and stops at a non-blank |
| Planner.SplitLineIff | internal/orchestrator/planner.go:135-151 | a line names a recipe exactly when one known token stands before its first colon and some text after it; any other line is all text |
| Planner.OnePerLine | internal/orchestrator/planner.go:80-108 | planning succeeds exactly when every line that is neither blank nor a comment has a recipe, and gives one sub-goal for each, in order |
| Planner.KeptLines | internal/orchestrator/planner.go:80-83 | line by line and in order: a line counts unless it is blank or a comment, and then without its outer blanks |
| Planner.RecipeForIs | internal/orchestrator/planner.go:85-108 | a line has a recipe exactly when it starts with one or the registry has one for it, and its sub-goal is what the line asks for |
| Planner.SpawnAllowedIff | internal/orchestrator/orchestrator.go:1160-1203 | a spawn is allowed exactly when it stays off the own repository, names a recipe and a task the plan declared, and policy allows it; the reason given is the first of these that fails |
| Planner.Itoa | internal/orchestrator/planner.go:163-173 | the digit loop writes the decimal numeral |
| Planner.SubGoalIDInjective | internal/orchestrator/planner.go:154-159 | different positions get different IDs, for any goal ID |
| Planner.PlanGoal | internal/orchestrator/planner.go:63-129 | one sub-goal per line that counts, in order, numbered, in the goal's repository: a line that starts with a recipe gets that recipe and the text behind it, any other the registry's recipe for it and the whole line; there is a plan exactly when every such line has a recipe; a goal without such a line is one sub-goal, its whole text under the registry's recipe |
| Planner.PlanShape | internal/orchestrator/planner.go:63-129 | a plan is never empty and its sub-goal IDs are distinct, non-empty and numbered by position |
| Planner.PlannedPassesGate | internal/orchestrator/orchestrator.go:1160-1203 | a planned sub-goal passes the plan-derived gate exactly when its recipe is named, and then policy alone decides |
| Planner.ReevaluateBlocked | internal/loop/blocked_action.go:198-246 | it resolves at the first replan that is no longer blocked, with that replan's allow set; escalates after exactly `bound` blocked ones, with the last allow set and needs-human written; and is refused exactly on a missing writer, an empty denial, a failed replan or a failed status write |
| Planner.RebuiltGoal | internal/orchestrator/orchestrator.go:934-960 | the goal rebuilt from ID and text alone re-derives the same allow set |
| Planner.DeniedSpawnEscalates | internal/orchestrator/blocked_action.go:46-74 | end to end: reevaluating any refused planned sub-goal with a named recipe never resolves, escalates after exactly the bound naming the recipe, `spawn-worker` and the reason, and reports exactly the plan's own allow set (without a recipe it resolves, by EscalatesIff) |
| Planner.EscalatesIff | internal/orchestrator/blocked_action.go:46-74 | reevaluation escalates exactly when the bound is zero or the re-derived plan still names the denied resource, otherwise resolves at the first replan, and refuses a negative bound |
| RunJournal.WritesKeepCount | internal/orchestrator/runstore.go:23-295 | no journal writer, re-admission of a new plan included, changes any goal's attempt counter |
| RunJournal.RecordingOne | internal/orchestrator/runstore.go:57-94 | recording an attempt sets exactly that task's entry, loses no other, keeps one entry per task and the plan and status |
| RunJournal.RecordedCompleted | internal/orchestrator/runstore.go:57-133 | the set of completed tasks gains or loses exactly that task |
| RunJournal.RunLog.PersistPlan | internal/orchestrator/runstore.go:23-50 | admission replaces the goal's record by a running one that gives exactly this plan back, with no attempts and no approvals; only the attempt counter is carried over, and no other goal changes |
| RunJournal.RunLog.RecordAttempt | internal/orchestrator/runstore.go:57-94 | the scan updates the first matching entry or appends one |
| RunJournal.RunLog.FinalizeGoalStatus | internal/orchestrator/runstore.go:100-133 | the goal becomes completed exactly when the plan has sub-goals, each has a completed attempt and no approval is awaited; nothing else changes |
| RunJournal.RunLog.CompletedOf | internal/orchestrator/runstore.go:113-118 | the completed set holds exactly the tasks with a completed entry |
| RunJournal.RunLog.RecordPendingApproval | internal/orchestrator/runstore.go:139-159 | the approval is queued behind the earlier ones, all of which stay, and the goal awaits; nothing else changes |
| RunJournal.RunLog.ResolveApproval | internal/orchestrator/runstore.go:182-221 | every pending approval of the task goes and no other; an approved goal runs again, a denied one keeps its status; nothing happens unless the task has one pending |
| RunJournal.RunLog.FinalizeAfterApproval | internal/orchestrator/runstore.go:255-298 | the goal awaits exactly while approvals are pending; otherwise it fails exactly when an attempt failed or needs a human, completes exactly when all attempts did, and runs on otherwise |
| RunJournal.RemainingInOrder | internal/orchestrator/runstore.go:357-376 | sub-goal by sub-goal and in plan order: one with a completed attempt is left out, any other stays |
| RunJournal.RunLog.RemainingOf | internal/orchestrator/runstore.go:357-376 | what is left of a journalled plan is its sub-goals without a completed entry, in plan order |
| Fleet.HeldFollows | internal/orchestrator/orchestrator.go:1129-1146 | a step takes a permit exactly when its worker comes to hold one, only a free one, and gives it back exactly when it stops holding it |
| Fleet.CapHolds | internal/orchestrator/orchestrator.go:1129-1146 | over every interleaving, all plans together, at most `cap` dispatches are live, and all permits are free once no worker is live |
| Fleet.PauseHolds | internal/orchestrator/orchestrator.go:1069-1146 | once a sub-goal has recorded a pending approval, at most `cap - 1` more of that plan start in any continuation, crashes and resumes included; none under one worker |
| FleetTrace.RunSound | internal/orchestrator/orchestrator.go:890-1118 | every reachable state has for each worker the history its phase calls for, and for each job the reports of its own workers |
| FleetTrace.StartFollowsGate | internal/orchestrator/orchestrator.go:1001-1118 | a dispatch follows its own worker's allow decision, happens once, and a worker with any other decision never starts |
| FleetTrace.CompletionIsLast | internal/orchestrator/orchestrator.go:905-989 | when a completion is emitted every worker of the job is done, no deny went unaudited, and no event of its workers follows |
| FleetTrace.OutcomesInOrder | internal/orchestrator/orchestrator.go:890-916 | whatever order workers finish in, slot i holds the outcome of sub-goal i, and a success there was allowed and dispatched; FleetOutcome.OutcomeIff says exactly when it is a success |
| FleetOutcome.OutcomeIff | internal/orchestrator/orchestrator.go:1001-1118 | over every interleaving, crashes and resumes included: slot i of a joined plan reports success if and only if the worker of sub-goal i came back without error from its dispatch and had not asked for approval; its detail is exactly what the one step that settled it said |
| FleetOutcome.StartWasDeclared | internal/orchestrator/orchestrator.go:1001-1060 | in every run a worker that started was judged before: recipe known, off the own repository, allowed by policy, recipe and task declared by its plan |
| FleetOutcome.RunExplained | internal/orchestrator/orchestrator.go:1001-1118 | in every run, what a worker's phase says was settled some step settled, and what a step settled stays so unless a crash kills the worker |
| FleetOutcome.StepJournals | internal/orchestrator/orchestrator.go:1062-1118 | with one entry per task (FleetResume.RecordStaysInOrder): a worker writes its goal's record alone, at three steps; it is noted as running, its approval queued, its ending recorded, and after that its task counts as completed exactly when it reports a success; a paused worker writes nothing |
| FleetOutcome.AcquireIff | internal/orchestrator/semaphore.go:39-46 | in every run a queued worker gets a permit exactly when fewer than `cap` workers hold one |
| FleetOutcome.ResumeDispatches | internal/orchestrator/runstore.go:357-385 | a resume starts one fresh worker for each sub-goal of the recorded plan without a completed attempt and for no other, in plan order (RunJournal.RemainingInOrder), behind all earlier workers |
| FleetOutcome.SettleCompletes | internal/orchestrator/runstore.go:100-133 | settling a joined plan completes its goal exactly when every sub-goal has a completed attempt, no approval is awaited and the store keeps the write |
| FleetResume.AdmittedIsPursued | internal/orchestrator/runstore.go:23-50 | a freshly admitted plan with distinct task IDs satisfies the invariant, and resuming it means dispatching all of it |
| FleetResume.StepKeeps | internal/orchestrator/orchestrator.go:890-1118 | every step of any worker, job or crash, and a resume when no worker of the goal can still write its attempt, keeps the invariant and takes no completion back |
| FleetResume.StepWaits | internal/orchestrator/orchestrator.go:1129-1146 | while the goal awaits approval nothing, a resume at any moment included, lets a worker of it get to the dispatch of a task once completed |
| FleetResume.NeverRedispatched | internal/orchestrator/runstore.go:357-385 | a sub-goal recorded completed at any point of a run is not dispatched at any later one, if every resume of the goal comes when none of its workers can still write its attempt or while it awaits approval |
| FleetResume.RecordStaysInOrder | internal/orchestrator/runstore.go:57-133 | in every such run each task has at most one attempt entry, and the goal is completed only when every sub-goal is |
| FleetResume.CompletionsStay | internal/orchestrator/runstore.go:57-94 | with resumes only when no worker of the goal can still write, what is completed at any point of a run is completed at its end |
| FleetOverlap.ResumeSafeIff | internal/orchestrator/runstore.go:357-385 | for every state of an admitted plan (Pursued, which AdmittedIsPursued establishes and StepKeeps keeps; Grounded, which ReachableGrounded gives for reachable states): some continuation of a resume dispatches a task once recorded completed if and only if some worker of the goal can still write its attempt and the goal does not await approval |
| FleetOverlap.OverlapFromStart | internal/orchestrator/runstore.go:357-385 | from any initial state, admitting a plan and resuming it twice has a continuation that dispatches a completed task again |
| FleetOverlap.ToCompleted | internal/orchestrator/orchestrator.go:1001-1118 | a worker that can still complete can be driven to record its task completed, with no other waiting worker touched, whatever the permits in use |
| FleetOverlap.FailsLast | internal/orchestrator/runstore.go:57-94 | a worker that is going to fail can overwrite the entry of a task another one completed, and after a crash the task is dispatched again |
| FleetOverlap.ReachableGrounded | internal/orchestrator/orchestrator.go:890-916 | every reachable state has the permits and jobs these results ask for |
| Completion.HasTerminalFailure | internal/orchestrator/runtocompletion.go:20-27 | true exactly when some outcome failed |
| Completion.FailureDetails | internal/orchestrator/runtocompletion.go:33-46 | the loop computes the texts that DetailsInOrder describes |
| Completion.DetailsInOrder | internal/orchestrator/runtocompletion.go:33-46 | outcome by outcome and in order: a success gives nothing, a failure its detail, or `sub-goal failed` when it has none |
| Completion.FoldGoalText | internal/orchestrator/orchestrator.go:779-791 | the loop computes the text that FoldedText describes |
| Completion.FoldedText | internal/orchestrator/orchestrator.go:779-791 | the original alone, or the original, one heading and one bullet per line of information in order |
| Completion.Driver.LoadAttemptCount | internal/orchestrator/runtocompletion.go:87-98 | the stored counter, zero without a record |
| Completion.Driver.SaveAttemptCount | internal/orchestrator/runtocompletion.go:102-114 | only the counter changes, and only when the save reached the store |
| Completion.Driver.RunToCompletion | internal/orchestrator/runtocompletion.go:57-83 | the calls stay within the budget left; each text folds only the previous call's failures into the original; every call but the last had no error and some failed sub-goal; the loop returns exactly the first call that errs or has no failure, and is exhausted only with every call failed and the budget used up |
| Completion.Driver.Record | internal/orchestrator/runstore.go:23-295 | whatever a call writes to the journal meanwhile, the counter stays |
| Completion.BudgetEquation | internal/orchestrator/runtocompletion.go:57-114 | over any crashes, restarts and journal writes: calls made plus the counter at the start equal the attempts known to the process or the store plus those forgotten at the ends of processes |
| Completion.BudgetHolds | internal/orchestrator/runtocompletion.go:57-114 | as long as no process ends with the stored counter behind its own, the total number of calls is at most what the budget has left |
| Completion.SavedBudgetHolds | internal/orchestrator/runtocompletion.go:57-114 | so it is when every counter save is stored |
| Completion.LostSavesCostCalls | internal/orchestrator/runtocompletion.go:102-114 | lost saves followed by crashes make any number of calls that leave the stored counter where it was |
| Semaphores.Semaphore.constructor | internal/orchestrator/semaphore.go:28-33 | the bound is at least one and every permit is free |
| Semaphores.Semaphore.Acquire | internal/orchestrator/semaphore.go:39-46 | it blocks exactly when saturated and not cancelled, takes one permit on success and none otherwise |
| Semaphores.Semaphore.TryAcquireN | internal/orchestrator/semaphore.go:53-69 | it succeeds exactly when n permits are free, and otherwise the rollback leaves the count as it was |
| Semaphores.Semaphore.Release | internal/orchestrator/semaphore.go:74-76 | one permit comes back; with none held it does not return |
| Semaphores.Semaphore.ReleaseN | internal/orchestrator/semaphore.go:79-83 | it returns exactly when n permits are held, and then that many come back; otherwise it drains all of them and blocks |
| Order.BeforeTotal | internal/router/router.go:185 | byte-wise string order compares any two different strings exactly one way |
| Order.BeforeTransitive | internal/router/router.go:185 | and is transitive |
| Order.BeforeIff | internal/router/router.go:185 | a string comes before its extensions, and otherwise the first character that differs decides, the smaller first |
| Routers.LessTotal | internal/router/router.go:174-193 | for either hint, of two entries with distinct IDs exactly one comes first, and none before itself |
| Routers.LessTransitive | internal/router/router.go:174-193 | selection order is transitive for either hint |
| Routers.CheapestWins | internal/router/router.go:141-193 | whenever some entry is available, strong enough and not escalated there is an answer, and none such is cheaper; among the equally cheap a sensitive hint prefers one without secret and limit, and the ID decides the rest |
| Routers.AnswerUnique | internal/router/router.go:141-166 | the registry's contents determine Select's answer, so catalog order cannot |
| Routers.NextInOrder | internal/router/router.go:141-206 | after a gate failure of the answer the next one is the eligible entry right behind it in selection order, and there is none exactly when it was the last |
| Routers.SortStable | internal/router/router.go:162-165 | sorting gives the same entries with none before one it should follow, and entries that tie keep their order |
| Routers.SaveLoadRoundTrip | internal/router/router.go:321-386 | saving and loading into a registry of the same configuration restores every entry except one with the empty ID |
| Routers.Catalog.RegisterEntry | internal/registry/catalog.go:22-32 | a duplicate ID panics and changes nothing; otherwise the entry is last in order |
| Routers.Catalog.LookupEntry | internal/registry/catalog.go:36-46 | the entry under that ID, never one for the empty ID |
| Routers.Catalog.UpdateEntry | internal/registry/catalog.go:53-61 | an existing entry is replaced in place; an absent one is not added |
| Routers.Catalog.ListEntries | internal/registry/catalog.go:64-73 | every entry once, in registration order |
| Routers.Router.TryAutoRecover | internal/router/router.go:115-125 | an exhausted entry whose reset time has passed becomes available with no usage, in the catalog too; any other stays as it is |
| Routers.Router.Gather | internal/router/router.go:142-157 | the pass recovers every due entry and keeps exactly the eligible ones |
| Routers.Router.Select | internal/router/router.go:141-165 | the answer is the first eligible entry in selection order, or none exactly when none is eligible; every due recovery happens either way |
| Routers.Router.OnQuotaExhausted | internal/router/router.go:224-238 | a limited entry that a lookup finds is out exactly until the clock has passed the given time, its usage kept; nothing else changes, and no unlimited entry ever |
| Routers.Router.RecordDispatch | internal/router/router.go:248-266 | a limited entry that a lookup finds is charged one use; the use that reaches the limit takes it out exactly until the clock has passed one window from now, any earlier one leaves its availability as it was; nothing else changes |
| Routers.Router.OnRateLimit | internal/router/router.go:278-301 | like exhaustion, until exactly the header's delay or else the cooldown from now has passed |
| Routers.Router.SaveState | internal/router/router.go:321-341 | the saved state has every entry's usage, status and reset time |
| Routers.Router.LoadState | internal/router/router.go:351-386 | it succeeds exactly when the file parses and no entry it finds has an unknown status, then restores exactly the entries found; a failed load leaves each entry old or restored |
| Quota.RunSound | internal/router/router.go:115-386 | every call, restart, save and load keeps usage within limits, in memory and on disk |
| Quota.AvailableHasBudget | internal/router/router.go:115-301 | from fresh entries with no negative limit, after any calls, restarts, saves and loads, an unlimited entry is available and an available limited one has usage below its limit |
| Quota.AtMostLimitDispatches | internal/router/router.go:115-386 | between two recoveries of a limited entry at most Limit dispatches go to it while it can be selected, across persistence round trips; Overrun.OverQuotaIff has the ones made when it cannot |
| Quota.UsageIsTotal | internal/router/router.go:115-386 | the usage of a limited entry is exactly the number of all dispatches to it since its last recovery, across persistence round trips |
| Quota.MarkHolds | internal/router/router.go:115-301 | after any calls, an entry that exhaustion, a rate limit or the dispatch that reaches its limit takes out until a time is nobody's answer while the clock is not past it, whatever is called in between that does not itself bring it back earlier; without another word on it, it is available again exactly when the clock is past that time |
| Quota.EscalatedIff | internal/router/router.go:204-216 | after any calls exactly the entries whose gate failed since the last reset or restart are escalated |
| Quota.SavedComesBack | internal/router/router.go:321-386 | a restart starts over from the configuration, and a load then brings back the registry as last saved, whatever was called since |
| Quota.EmptyIdUntouched | internal/registry/catalog.go:36-46 | after any calls an entry with the empty ID is as configured: never charged, marked or restored |
| Overrun.OverQuotaIff | internal/runtime/run.go:566-587 | an attempt goes over quota exactly when the hook before it kept an exhausted entry, and then the router had no answer |
| Overrun.AttemptsBetweenRecoveries | internal/router/router.go:248-266 | between two recoveries of a limited entry every attempt on it is charged, and all but those over quota number at most what its budget has left |
| Overrun.KeptPastItsLimit | internal/runtime/run.go:566-587 | with one entry of limit one, every attempt after the first goes over quota, for any number of attempts, after one Select and with no recovery |
| Retry.RunCycle | internal/loop/loop.go:117-172 | the trace is a prefix of pick, attempt, verify, advance that says how far the cycle got; it is done exactly when it is whole, and the reason of a failure is the stage that failed |
| Retry.RunRecorded | internal/runtime/run.go:482-485 | one recorded dispatch on the wrapped entry before each run |
| Retry.Escalate | internal/runtime/run.go:566-587 | the current entry fails, then the router's answer replaces it, or it stays when there is none; an error only when the answer cannot be built |
| Retry.RunAttempt | internal/runtime/run.go:482-485 | an attempt is one recorded dispatch and one cycle |
| Retry.RunOnce | internal/loop/retry_policy.go:126-193 | at most MaxAttempts attempts, one recorded dispatch each on the entry that ran it, every change of entry the router's own answer, each attempt told why the previous one failed, success exactly at the first attempt that passes, a human exactly after MaxAttempts failures, a hook error only when the router's answer cannot be built; and the registry and the escalations as those attempts leave them |
| Retry.ResolveExecutor | internal/runtime/run.go:521-543 | the first entry is the router's answer, and none when there is no answer or it cannot be built |
| Retry.RunDispatch | internal/runtime/run.go:476-587 | over a whole dispatch, from first selection to last attempt: bounded, recorded once per attempt, every entry the router's own answer or kept for want of one, no entry reused once left, and climbing |
| Retry.NeverReused | internal/runtime/run.go:566-587 | an entry once left is never used again |
| Retry.ChangeClimbs | internal/router/router.go:141-206 | unless an entry recovered at that hook, a change of entry moves strictly forward in selection order |
| Retry.EntriesClimb | internal/router/router.go:141-206 | while no entry recovers, entries used strictly increase in selection order whenever they change |
| ReplayCaches.ReplayCache.constructor | internal/envelope/replay.go:33-41 | a zero window means sixty seconds |
| ReplayCaches.ReplayCache.Check | internal/envelope/replay.go:51-74 | stale exactly outside one window either side of the clock, replayed exactly inside it with a cached nonce; only a fresh check changes the cache: it records its nonce and drops exactly those more than two windows old |
| ReplayCaches.ReplayCache.EvictAt | internal/envelope/replay.go:84-91 | the sweep keeps exactly the nonces not older than two windows |
| ReplayCaches.ReplayCache.Evict | internal/envelope/replay.go:94-98 | an explicit sweep forgets the same nonces and judges nothing |
| ReplayCaches.AcceptedApart | internal/envelope/replay.go:51-91 | in any run with a non-decreasing clock two accepted checks of one nonce carry timestamps more than the window apart |
| ReplayCaches.CacheBounded | internal/envelope/replay.go:51-91 | after an accepted check every cached timestamp lies from two windows ago to one window ahead |
| ReplayCaches.ForgottenIff | internal/envelope/replay.go:51-91 | an accepted nonce is forgotten exactly when some sweep has passed its last accepted timestamp |
| ReplayCaches.ForgettingShowsIff | internal/envelope/replay.go:51-91 | in any run with a non-decreasing clock a check disagrees with the cache that never forgets exactly when it is in the window, its nonce was accepted before and a sweep has passed the timestamp last accepted; it is then accepted, more than a window after that timestamp |
| ReplayCaches.AgreesWithUnbounded | internal/envelope/replay.go:51-91 | if each nonce has one timestamp, the bounded cache gives the unbounded cache's verdict on every call of every run |
| ReplayCaches.TwoTimestampsDisagree | internal/envelope/replay.go:51-91 | for every window there is a run with two timestamps for a nonce on which they disagree |
| Telegram.PositionAfter | internal/channel/telegram/adapter.go:305-307 | acknowledging an update by its ID plus one moves the stream on by exactly that update |
| Telegram.Adapter.ProcessBatch | internal/channel/telegram/adapter.go:304-456 | a batch is processed in order up to its first delivery, the offset following each update; without a delivery all of it is |
| Telegram.Adapter.Next | internal/channel/telegram/adapter.go:246-275 | over any polls, errors and shutdown, one call processes the next stretch of the stream, ends at its first deliverable update and delivers that, and otherwise reaches as far as its polls were served |
| Telegram.Adapter.Session | internal/channel/telegram/adapter.go:246-275 | all calls together process a stretch of the stream with no skip and no repeat, each call going as far as its polls say, and end in the state and messages of one pass over it, one update at a time |
| StatusWriter.LinesConcat | internal/tasksource/status_writer.go:176-194 | splitting any body and concatenating gives it back, in lines with a newline only at their ends |
| StatusWriter.ConcatLines | internal/tasksource/status_writer.go:176-194 | it is the only such split |
| StatusWriter.SplitLinesKeepingEndings | internal/tasksource/status_writer.go:176-194 | the scanning loop computes that split |
| StatusWriter.TrimLineEnding | internal/tasksource/status_writer.go:196-204 | content and ending make up the line |
| StatusWriter.ReplacementShape | internal/tasksource/status_writer.go:160-164 | the replacement is a status line with the ending of the line it replaces |
| StatusWriter.RewriteStatusLine | internal/tasksource/status_writer.go:143-174 | in the bytes of the file: it fails exactly when no line, or more than one, starts with `**Status:**`; otherwise the text of that line becomes `**Status:** ` and the status asked for, every other byte stays, the line's own ending included, and changed is reported exactly when the bytes differ |
| StatusWriter.StatusLines | internal/tasksource/status_writer.go:143-158 | the lines that carry a status are exactly those that start with the marker in the bytes of the file |
| StatusWriter.AnswerIsForced | internal/tasksource/status_writer.go:143-174 | the body and status allow only one answer, so it fails exactly on none or several |
| StatusWriter.RewriteOnce | internal/tasksource/status_writer.go:143-174 | the result has exactly one status line, at the same place, and rewriting it again changes nothing |
| Supervisors.TeardownIsLast | internal/supervisor/supervisor.go:268-391 | a created box is torn down exactly once and last |
| Supervisors.TeardownAfterAll | internal/supervisor/supervisor.go:268-447 | before teardown a started loop was joined, an open record closed after that, and a configured sink sealed |
| Supervisors.RunMeans | internal/supervisor/supervisor.go:268-391 | how far a run gets, event by event, and that it is an error exactly when a part of it or its teardown failed |
| Supervisors.RecordedOutcome | internal/supervisor/supervisor.go:315-391 | the record says timed out exactly when a configured timeout fired on the started loop, completed exactly when the loop came back by itself without error, and failed otherwise |
| Supervisors.KillMeans | internal/supervisor/supervisor.go:268-426 | a started loop is killed exactly on a cancel or an expired configured timeout, once, and the run then fails whatever the kill says |
| Supervisors.CheckpointIff | internal/supervisor/supervisor.go:291-313 | a checkpoint is created exactly on a run that is error-free up to its teardown, with a signer whose chain is valid, verified before, and whose attempt succeeds; a failed attempt does not change the run's error |
| Supervisors.Supervisor.OpenRunRecord | internal/supervisor/supervisor.go:491-514 | the record is open exactly when configured, created and started |
| Supervisors.Supervisor.CloseRunRecord | internal/supervisor/supervisor.go:516-530 | an open record gets the run's outcome and is closed even when finishing it failed |
| Supervisors.Supervisor.SealSink | internal/supervisor/supervisor.go:565-573 | a configured sink is sealed on every path |
| Supervisors.Supervisor.MaybeCreateCheckpoint | internal/supervisor/supervisor.go:539-559 | a checkpoint only after a readable, untampered chain |
| Supervisors.Supervisor.KillAndJoin | internal/supervisor/supervisor.go:406-426 | the loop is joined whatever the kill says |
| Supervisors.Supervisor.Finish | internal/supervisor/supervisor.go:291-313 | the deferred part completes the lifecycle in order on every path |
| Supervisors.Supervisor.RunInside | internal/supervisor/supervisor.go:315-391 | the loop starts exactly when the record is ready or unwanted, and the outcome names the arm taken |
| Supervisors.Supervisor.Run | internal/supervisor/supervisor.go:268-391 | for every combination of answers from outside, exactly the events due happen, in order, each once, and the error is nil exactly when every part succeeded |

## Left out

- Completion.BudgetHolds: a store whose Load errs is not modelled.
- FleetResume.NeverRedispatched: resuming a single approved sub-goal is not among the actions, and a resume reads its record when it starts, not earlier.
- Quota.AtMostLimitDispatches: a load of a state older than the router's own is excluded; Quota.AvailableHasBudget covers any load.
- FleetOutcome.OutcomeIff: says nothing about a job a crash cut off before its join, since it has no outcomes.
- Fleet.PauseHolds: the pause lasts until the plan is admitted anew; a pending approval whose save failed does not pause.
- Telegram.Adapter.Session: assumes a server that returns pending updates in ascending ID order from the offset.
- Journal.CrashRecovers: appends reach the disk in order, a rename is atomic, and a completed fsync is durable; directory fsync and file modes are not modelled.
- JSON layout: indentation, omitted empty fields, replacement of invalid UTF-8 and the escapes of U+2028, U+2029 and HTML characters are not modelled; one character stands for one byte, and numbers are natural.
- Trimming drops ASCII blanks only; Unicode spaces are not modelled.
- Record times are natural numbers, and timestamps inside the run journal are not tracked.
- Stores and semaphores that are not configured (nil), and a runtime status registry, are not modelled.
- RunJournal.RunLog.ResolveApproval: the journal writes of ResumeApproval only, without the re-dispatch between them; SweepApprovalTimeouts, ResumeWithFold, cancel and approve races are not modelled, since the code does not give them the atomicity a theorem needs.
- Registry fields the router does not read (harness, model, endpoint), loading the registry from the environment, and the text of the router's state file are not modelled.
- The skill registry, policy engine, armor, vault and audit chain appear as answers from outside.
- Repository canonicalisation for the self-repo rule is an oracle: it rests on URL parsing.
- Cryptography, envelopes, per-update authorisation, executors, the git publisher, gate commands and sandboxing are not modelled.
- Failure formatting for the next attempt (its truncation to a rune boundary included) is reduced to the failure's reason.
- Finding the file a status write applies to, reports, logging, configuration, clarification and multi-turn conversation are not modelled.
- Panics inside box, record or sink calls are not modelled; a panicking loop is.
- Supervisors.TeardownIsLast: assumes a logger; with `WithLogger(nil)` and a signer, reporting a bad chain or a failed checkpoint would panic before the teardown (internal/supervisor/supervisor.go:545-557). `New` sets a logger and the runtime never passes nil.
- ResetEscalation of the router is an action of Quota's runs only: nothing in the repository calls it.
