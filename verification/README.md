# Orcha, verified

Orcha is a workflow server. This project models the parts of it whose correctness is
hard to see from one function, and proves what they promise: over every interleaving,
every crash point, every input. Each module models one component of the repository.

| module | component |
|---|---|
| `Placeholders`, `PlaceholderMeaning`, `WorkflowEngine`, `WorkflowConfluence`, `WorkflowRace`, `WorkflowRun`, `Rollback` | the workflow engine: placeholders, parallel steps, rollback |
| `PluginInstaller` | plugin installation: journal, backup, rollback, crash recovery |
| `RunQueue`, `RunQueueOutcomes`, `RunQueueProgress`, `RunQueueMonitor` | the run queue as a machine of its critical sections, the status each run ends with, how it comes to its stop, and these sections |
| `JobService`, `RunStore` | executing a persisted run; the run table |
| `NestedRuns` | jobs that run jobs: cycle guard, depth guard, inherited deadlines |
| `DependencyResolver`, `CycleReports` | plugin load order and the cycle report |
| `NameGlob`, `Base64` | the plugin-name glob and the base64 codec of plugin packages |
| `YamlConvert`, `YamlUnfolding`, `YamlErrors`, `YamlConverter`, `YamlLiteral` | YAML to JSON with aliases and merge keys: what a document means, which convert, what an error says; literal blocks |
| `CircuitBreaker` | the circuit breaker |
| `Logger` | the asynchronous logger |
| `Json`, `Wrappers` | JSON values; options and results |

Code that changes state step by step is modelled by methods and classes that do the same,
each tied by its contract to a function of the old state; the theorems are lemmas about
these functions, about invariants, or about whole sequences of events. Threads are
modelled as events: each critical section and each call to a store is one event, and any
order of enabled events is a run; a waiting thread may wake at any moment. Clocks, thread
schedules, failing writes, crash points and what commands, engines and libraries do are
parameters or nondeterministic choices.

## What was found

- A parallel step that refers to a later step, by position or by name, may see that step's
  result or a blank one as the threads happen to run: names are looked up over all
  results (src/orcha/workflow/WorkflowEngine.cpp:164), while waiting covers earlier
  steps only (lines 289, 295). It always sees a blank one where the later step is held
  back: it waits for the referring step, or a sequential step in between does. With
  distinct names the result is independent of the schedule if and only if every later
  step referred to is held back (`WorkflowRace.RaceFreeExactly`); without a race it is so
  whatever the names are (`WorkflowConfluence.Confluence`).
- A plugin install that crashes while it is being committed is not always restored by
  recovery, and is exactly when the plugin was not on the denylist before and its old
  directory has not been removed (`PluginInstaller.Server.RestartCommitting`). The comment
  at src/orcha/core/PluginInstaller.cpp:775 says that the plugin is on the denylist
  while its journal remains; in this window it is not.
- Once `stop()` and every `submit()` have returned, a run can still be live: a `cancel()`
  that has taken it out of the queue may not have recorded that yet
  (`RunQueue.OutstandingCancelLeavesRunLive`). Exactly such runs are
  (`RunQueue.QuiescentButForCancels`).
- A successful probe closes a circuit breaker without clearing its failure count, so one
  more failure opens it again whatever the threshold (`CircuitBreaker.ProbeForgivesNothing`).
  Outcomes carry no identity, so a late one makes room for a second probe beside the first
  (`CircuitBreaker.StaleOutcomeAdmitsSecondProbe`): at most one probe is ever out if and
  only if no request was outstanding on entering half-open (`CircuitBreaker.OneProbeExactly`).
- The base64 decoder does not count '=': "Zg", "Zg=" and "Zg==" decode alike
  (`Base64.PaddingIsNotCounted`); `Base64.CanonicalText` says when a text is the encoding.
- A flush that meets a shutdown promises nothing: it keeps its promise in every
  continuation if and only if everything accepted was already output when it was called
  (`Logger.FlushAlwaysKeptExactly`).
- A literal block at indentation 0, where the writer puts a string that is the whole
  document (src/orcha/utils/YamlJson.cpp:279), is read back if and only if none of its lines
  is a document marker (`YamlLiteral.TopLevelExactly`, `YamlLiteral.MarkerExample`).
  `json_to_yaml` finds this out by reading its own text (lines 404-418), and then writes the
  string quoted.
- A cycle report runs to the end of the search path, and so may lead from one cycle into
  another (`CycleReports.ReportNeedNotBeCycle`). A prefix of it is a cycle; all of it is
  where no elementary cycle leads to one with other plugins (`CycleReports.ReportIsCycle`).

## Model

| member | source | states |
|---|---|---|
| Placeholders.ResolveString | src/orcha/workflow/WorkflowEngine.cpp:133-178 | the single pass with its copied-up-to index replaces every placeholder of the original text once and copies the rest; substituted text is never scanned |
| Placeholders.CopyUpTo | src/orcha/workflow/WorkflowEngine.cpp:145-149 | up to the next match the text is copied unchanged |
| Placeholders.StringReadsReferences | src/orcha/workflow/WorkflowEngine.cpp:186-204 | two result lists that agree on the references of a string resolve it alike |
| Placeholders.ResolveReadsReferences | src/orcha/workflow/WorkflowEngine.cpp:77-104 | the same for whole parameter trees: resolving reads only what `references` names |
| PlaceholderMeaning.StandingIsMatched | src/orcha/workflow/WorkflowEngine.cpp:112-117 | whatever the grammar of placeholders puts at a position is what is matched there, to its end, with its subject and path |
| PlaceholderMeaning.MatchedStands | src/orcha/workflow/WorkflowEngine.cpp:112-117 | and whatever is matched is a placeholder of the grammar |
| PlaceholderMeaning.NameMeans | src/orcha/workflow/WorkflowEngine.cpp:157-170 | looking a name up finds the output of the latest result that has it, and nothing exactly if none has |
| PlaceholderMeaning.SubstituteShows | src/orcha/workflow/WorkflowEngine.cpp:152-174 | a placeholder is replaced by the printed value its path leads to in the result it means, or by nothing |
| PlaceholderMeaning.ResolveMeans | src/orcha/workflow/WorkflowEngine.cpp:77-178 | resolved parameters are the same tree with every text read as characters and placeholders and each placeholder replaced by what it shows |
| PlaceholderMeaning.ReferencesAre | src/orcha/workflow/WorkflowEngine.cpp:186-204 | the references of a text are exactly what the placeholders it reads as name |
| WorkflowEngine.LatestStep | src/orcha/workflow/WorkflowEngine.cpp:293-300 | a name binds to the latest earlier step that has it, or to none |
| WorkflowEngine.StepKeepsInv | src/orcha/workflow/WorkflowEngine.cpp:354-496 | every event of a run keeps: launched prefix, blank results until done, no step begun before all its dependencies are done, completion order listing exactly the successful steps once, each after the successful ones it depends on, directly or through others |
| WorkflowEngine.RecordKeepsOrder | src/orcha/workflow/WorkflowEngine.cpp:453-459 | recording a result leaves every completed step behind the successful steps it depends on, directly or through others |
| WorkflowEngine.UnblockedMeansDone | src/orcha/workflow/WorkflowEngine.cpp:355-359 | waiting for the parallel dependencies only is enough: the sequential ones are done |
| WorkflowEngine.AllBehindAreDone | src/orcha/workflow/WorkflowEngine.cpp:355-359 | once a step's own dependencies are done, so is everything it depends on through others |
| WorkflowEngine.RanWith | src/orcha/workflow/WorkflowEngine.cpp:410-415 | over any run, the parameters kept for a step are the ones it began with, resolved against the results of that moment |
| WorkflowEngine.StepDoesWork | src/orcha/workflow/WorkflowEngine.cpp:471-496 | every event moves a step on |
| WorkflowEngine.RunsAreShort | src/orcha/workflow/WorkflowEngine.cpp:471-496 | no run has more than three events a step: with terminating commands the loop and the wait finish |
| WorkflowEngine.SomeStepIsFree | src/orcha/workflow/WorkflowEngine.cpp:284-304 | among launched steps that have not returned, one is not blocked, as waits go to smaller indices |
| WorkflowEngine.NoDeadlock | src/orcha/workflow/WorkflowEngine.cpp:354-359 | in every state of an unfinished run some step can move |
| WorkflowEngine.RecordIsCommanded | src/orcha/workflow/WorkflowEngine.cpp:20-69 | a step is recorded as a success exactly if its command is registered, accepts the parameters, returns, and does not report failure; then with its output, otherwise with the failure and message it comes to, under its command, name and index |
| WorkflowEngine.FirstErrorIs | src/orcha/workflow/WorkflowEngine.cpp:501-507 | the error of a run is that of its first failed step that has one |
| WorkflowConfluence.ResolvesAsInOrder | src/orcha/workflow/WorkflowEngine.cpp:408-414 | without references that can meet a later result, a step resolves the parameters it would resolve if the steps ran in index order |
| WorkflowConfluence.HeldBackIsBlank | src/orcha/workflow/WorkflowEngine.cpp:354-490 | a later step that waits for step i, or comes after a sequential step that does, is not through before step i is |
| WorkflowConfluence.NameFound | src/orcha/workflow/WorkflowEngine.cpp:160-170 | the lookup over all results finds the step the dependency analysis waits for |
| WorkflowConfluence.LaterPositionAgrees | src/orcha/workflow/WorkflowEngine.cpp:154-158 | a position that is not earlier is blank when the step resolves |
| WorkflowConfluence.RunAgrees | src/orcha/workflow/WorkflowEngine.cpp:308-496 | at every point of an undisturbed run, everything done so far is what running in index order does |
| WorkflowConfluence.Confluence | src/orcha/workflow/WorkflowEngine.cpp:308-517 | every interleaving ends with the parameters, results, success and error message of running in index order and stopping only at a failed sequential step |
| WorkflowConfluence.ResultsAreCommanded | src/orcha/workflow/WorkflowEngine.cpp:398-461 | in every undisturbed run, every step that has returned has the result its command gives for the parameters it began with |
| WorkflowConfluence.BoundReferencesAreRaceFree | src/orcha/workflow/WorkflowEngine.cpp:284-304 | distinct names and references bound to earlier steps rule out races |
| WorkflowRace.ForwardReferenceRaces | src/orcha/workflow/WorkflowEngine.cpp:154-170 | one definition that refers to a later step by position and one by name, neither independent of the schedule |
| WorkflowRace.HeldBackReferenceDoesNotRace | src/orcha/workflow/WorkflowEngine.cpp:479-490 | a definition that refers to a later step and is independent of the schedule, as that step is held back |
| WorkflowRace.Complete | src/orcha/workflow/WorkflowEngine.cpp:471-496 | every undisturbed run can be continued to its end, what has begun staying as it is |
| WorkflowRace.ResolvesDifferently | src/orcha/workflow/WorkflowEngine.cpp:133-178 | parameters resolve differently against results in which one placeholder more shows something |
| WorkflowRace.Races | src/orcha/workflow/WorkflowEngine.cpp:150-170 | whenever a reference bound to no earlier step reaches a later one that can overtake, some commands and two undisturbed runs to the end leave the step different parameters |
| WorkflowRace.RaceFreeExactly | src/orcha/workflow/WorkflowEngine.cpp:284-304 | with distinct names, all undisturbed runs of all commands agree if and only if no parallel step refers to a later step that can overtake it |
| WorkflowRun.Settled | src/orcha/workflow/WorkflowEngine.cpp:422-437 | a result is only kept as a success if it came in time; undisturbed results are kept as they are |
| WorkflowRun.MoveIsMet | src/orcha/workflow/WorkflowEngine.cpp:389-461 | under any circumstances of deadline, cancellation and breaker, a step that returns has the result these and its command call for |
| WorkflowRun.ConcludedReports | src/orcha/workflow/WorkflowEngine.cpp:498-517 | the reported run: success exactly if every step succeeded, else the first message; undone exactly as the strategy, the registry and the completion order say, nothing else changed |
| WorkflowRun.WorkflowRun.Perform | src/orcha/workflow/WorkflowEngine.cpp:389-461 | the code of a step's thread does to the shared vectors what its next event says |
| WorkflowRun.WorkflowRun.Await | src/orcha/workflow/WorkflowEngine.cpp:463-469 | waiting for a step ends, whatever order the threads move in, and undoes nothing |
| WorkflowRun.WorkflowRun.Execute | src/orcha/workflow/WorkflowEngine.cpp:308-517 | the launch loop, wait and rollback end every schedule in a finished run in which every step that was reached has the result its command and circumstances call for, reported and undone accordingly; undisturbed and race free, it is the in-order one |
| WorkflowRun.ErrorOf | src/orcha/workflow/WorkflowEngine.cpp:501-507 | the loop reports the message of the first failed step that has one |
| Rollback.RollBack | src/orcha/workflow/WorkflowEngine.cpp:519-569 | the backwards loop with its halted flag, as a function of the completion order |
| Rollback.OutcomeOf | src/orcha/workflow/WorkflowEngine.cpp:534-567 | each completed step's outcome from the completion order alone: skipped at shutdown; under Reverse skipped exactly if a later completion failed to be undone; else its own attempt |
| Rollback.OutcomeSays | src/orcha/workflow/WorkflowEngine.cpp:519-569 | over the whole list, from the registry alone: skipped exactly at shutdown or, under Reverse, if a later completion cannot be undone; else rolled back, unsupported or failed as its command says, with its message |
| Rollback.CalledExactly | src/orcha/workflow/WorkflowEngine.cpp:538-549 | a command's rollback is called exactly when the walk gets to a step whose command is registered and supports it |
| Rollback.CallsAreInReverse | src/orcha/workflow/WorkflowEngine.cpp:533-549 | calls go from later to earlier completions, each with the parameters the step ran with |
| Rollback.ExactlyTheCompletedAreUndone | src/orcha/workflow/WorkflowEngine.cpp:519-569 | exactly the successful steps get an outcome, and nothing else of any result changes |
| Rollback.DependentsAreUndoneFirst | src/orcha/workflow/WorkflowEngine.cpp:456-459 | a step's rollback is called before that of every step it depends on, directly or through steps that failed or cannot be undone |
| PluginInstaller.TargetActionKeeps | src/orcha/core/PluginInstaller.cpp:684-690 | however far an action on the new version's directory gets, the install can still be undone |
| PluginInstaller.MoveKeeps | src/orcha/core/PluginInstaller.cpp:660-683 | moving a file aside or back, torn or not, leaves every moved file in exactly one of its two places |
| PluginInstaller.BackupRemovalKeeps | src/orcha/core/PluginInstaller.cpp:807 | with every file back, removing the backup, even partly, loses nothing |
| PluginInstaller.UndoneIsRestored | src/orcha/core/PluginInstaller.cpp:801-815 | target gone, files back, denylist as before: dropping the journal leaves exactly the old plugin files, directories and denylist |
| PluginInstaller.DeniedAsBefore | src/orcha/core/PluginInstaller.cpp:806 | recovery's rule for the denylist restores it |
| PluginInstaller.NothingBelow | src/orcha/core/PluginInstaller.cpp:633-635 | the check that the target does not exist rules out anything below it |
| PluginInstaller.JournalIsAcceptable | src/orcha/core/PluginInstaller.cpp:787-799 | the journals install writes pass the checks recovery makes before it touches anything |
| PluginInstaller.NewVersionHolds | src/orcha/core/PluginInstaller.cpp:684-689 | writing under ".part" names and renaming leaves exactly the new files in the target |
| PluginInstaller.Server.InstallFiles | src/orcha/core/PluginInstaller.cpp:670-692 | a crash anywhere from the journal to the load attempt leaves a restorable disk; otherwise the old files are aside, the new ones in, the plugin denied |
| PluginInstaller.Server.Rollback | src/orcha/core/PluginInstaller.cpp:657-668 | rollback restores everything; a crash inside it leaves a restorable disk |
| PluginInstaller.Server.RecoverOne | src/orcha/core/PluginInstaller.cpp:781-820 | from every undoable disk recovery restores everything, or crashes leaving it restorable |
| PluginInstaller.OldDirIsTidied | src/orcha/core/PluginInstaller.cpp:730 | removing the old directory if empty removes it exactly if the old plugin's files were all there was in it |
| PluginInstaller.DiscardCompletes | src/orcha/core/PluginInstaller.cpp:738 | removing the upload leaves nothing at or below it, and so neither the upload nor the backup |
| PluginInstaller.Server.Commit | src/orcha/core/PluginInstaller.cpp:718-738 | a committed install has the new version in, the old one out, the name allowed, and nothing left at or below the upload; a crash leaves an undoable, committing or committed disk |
| PluginInstaller.Server.Install | src/orcha/core/PluginInstaller.cpp:655-738 | what each way an install can end leaves on the disk; an installed one has left neither the upload nor the backup |
| PluginInstaller.Server.Restart | src/orcha/core/PluginInstaller.cpp:751-779 | any number of starts, each of which may crash in recovery, end restored with the first that does not |
| PluginInstaller.Server.InstallAndRestart | src/orcha/core/PluginInstaller.cpp:655-820 | crash atomicity: an install that ends without a crash is complete, upload and backup gone; one that crashes up to the load attempt or in rollback, and any number of crashed recoveries, end with plugin files and denylist as before |
| PluginInstaller.RestoredCanRetry | src/orcha/core/PluginInstaller.cpp:681 | a restored disk, with what a crash has left of the emptied backup directory, meets what a second install of the upload is planned on |
| PluginInstaller.CommittingIsUndoable | src/orcha/core/PluginInstaller.cpp:719-731 | in the commit window, not denied before and the old directory still there make the install undoable |
| PluginInstaller.MoveBackThrows | src/orcha/core/PluginInstaller.cpp:803-805 | with the old directory removed there is nowhere to rename the backup to |
| PluginInstaller.Server.RestartCommitting | src/orcha/core/PluginInstaller.cpp:718-806 | in the commit window recovery restores everything if and only if the plugin was not denied before and its old directory has not been removed |
| RunQueue.FullExactlyAtBound | src/orcha/jobs/RunQueue.cpp:43-46 | the idle-runner subtraction does not underflow, and a submit is refused as full exactly when queued, reserved and running runs are at their bound |
| RunQueue.RunnerKeepsCounts | src/orcha/jobs/RunQueue.cpp:76-118 | runner events keep the admission bound and the counters' meaning |
| RunQueue.CallerKeepsCounts | src/orcha/jobs/RunQueue.cpp:35-65 | events of submit, cancel and stop keep them |
| RunQueue.RunnerKeepsPlaces | src/orcha/jobs/RunQueue.cpp:73-119 | queue, active runs and runners hold exactly the runs each is responsible for |
| RunQueue.CallerKeepsPlaces | src/orcha/jobs/RunQueue.cpp:30-72 | so do they under submit, cancel, stop and finish_cancelled |
| RunQueue.CallerKeepsCompletions | src/orcha/jobs/RunQueue.cpp:210-234 | a tracker is completed only for a run that is over; after stop nothing is queued and every held run has been asked to stop |
| RunQueue.ExecutedInOrderOnce | src/orcha/jobs/RunQueue.cpp:76-87 | runs start in the order they were enqueued, each at most once, those dropped never |
| RunQueue.DroppedIsNeverExecuted | src/orcha/jobs/RunQueue.cpp:169-190 | over any run of the machine, a run that cancel answered Cancelled for, stop swept up or submit refused is never executed |
| RunQueue.EventKeepsInv | src/orcha/jobs/RunQueue.cpp:30-239 | every event keeps every part of the invariant; which status a run ends with is `RunQueueOutcomes.FinalStatusIs` |
| RunQueue.RunKeepsInv | src/orcha/jobs/RunQueue.cpp:30-239 | so it holds in every reachable state |
| RunQueue.InExactlyOnePlace | src/orcha/jobs/RunQueue.cpp:30-141 | every admitted run is in exactly one of persisting, queued, running, finishing, done, and completed exactly once if done |
| RunQueue.StatusMoves | src/orcha/jobs/SqliteJobStore.cpp:304-328 | under every event a stored status only moves queued, running, final or queued, final, and a final row never changes |
| RunQueue.QuiescentButForCancels | src/orcha/jobs/RunQueue.cpp:210-234 | once stop and all submits have returned, the admitted runs that are still live are exactly those a cancel has taken and not recorded |
| RunQueue.OutstandingCancelLeavesRunLive | src/orcha/jobs/RunQueue.cpp:169-190 | a run of the machine in which such a run exists |
| RunQueueOutcomes.RunIsTold | src/orcha/jobs/RunQueue.cpp:73-141 | in every reachable state, every run's record says what the events so far have made of it |
| RunQueueOutcomes.FinalStatusIs | src/orcha/jobs/RunQueue.cpp:89-141 | with successful writes, a final row of a run that never started is cancelled, with the reason recorded; of one that started it is a success exactly if the engine's outcome was, cancelled exactly if it was not and a cancel or stop came before, and failed otherwise |
| RunQueueOutcomes.InsertedRow | src/orcha/jobs/RunQueue.cpp:49-53 | an admitted run's row is the record as accepted, owned by this process |
| RunQueueOutcomes.RunningRow | src/orcha/jobs/JobService.hpp:63-65 | a run that is picked up shows as running since then |
| RunQueueOutcomes.DoneIsFinal | src/orcha/jobs/RunQueue.cpp:120-127 | with successful writes, a run whose tracker is completed has a final row and the same record in its tracker |
| RunQueueProgress.StopCanGoOn | src/orcha/jobs/RunQueue.cpp:226-234 | in every stopping state in which stop has not returned, its sweep or a runner has an event it can do |
| RunQueueProgress.StopEndsSooner | src/orcha/jobs/RunQueue.cpp:210-234 | each such event leaves less to do, and no other event leaves more |
| RunQueueProgress.StopReturnsSoon | src/orcha/jobs/RunQueue.cpp:210-234 | over any run, stop's sweep and the runners have no more events than what was left to do |
| RunQueueProgress.NothingLeftToDo | src/orcha/jobs/RunQueue.cpp:226-234 | with nothing left to do, stop has returned |
| RunQueue.WaitReturnsStored | src/orcha/jobs/RunQueue.cpp:147-167 | with successful writes, whatever record wait returns is the final row as it was stored |
| RunQueueMonitor.Monitor.Reserve | src/orcha/jobs/RunQueue.cpp:35-48 | submit's first section answers shutting down, full exactly at the bound, or holds a slot |
| RunQueueMonitor.Monitor.FinishSubmit | src/orcha/jobs/RunQueue.cpp:57-71 | its second section lets go of the slot and queues the run if it was stored and stop has not come between |
| RunQueueMonitor.Monitor.TakeNext | src/orcha/jobs/RunQueue.cpp:77-87 | a runner takes the front of the queue |
| RunQueueMonitor.Monitor.CancelSection | src/orcha/jobs/RunQueue.cpp:171-184 | cancel takes out exactly a queued run, asks an active one to stop, touches nothing else |
| RunQueueMonitor.Monitor.StopSection | src/orcha/jobs/RunQueue.cpp:211-225 | stop takes out every queued run and asks exactly the other active ones to stop |
| RunStore.RunStore.InsertRun | src/orcha/jobs/SqliteJobStore.cpp:270-302 | a run is inserted once under a new id; the prune counter and its interval |
| RunStore.RunStore.UpdateRun | src/orcha/jobs/SqliteJobStore.cpp:304-328 | an update succeeds exactly on a live row |
| RunStore.RowOfUpdated | src/orcha/jobs/SqliteJobStore.cpp:304-328 | an update of a live row writes progress, result, error and status and leaves identity, request and owner |
| RunStore.GetOfUpdated | src/orcha/jobs/SqliteJobStore.cpp:308-311 | a live run's row is rewritten, a final one's never, no other row changes |
| RunStore.GetOfMarked | src/orcha/jobs/SqliteJobStore.cpp:330-348 | exactly the live runs of other processes become interrupted |
| RunStore.PruneKeeps | src/orcha/jobs/SqliteJobStore.cpp:355-369 | pruning leaves as many final runs as it is told to keep, if there are that many |
| RunStore.PruneDeletesOldest | src/orcha/jobs/SqliteJobStore.cpp:357-360 | it deletes only final runs, and none newer than one it keeps |
| RunStore.GetOfPruned | src/orcha/jobs/SqliteJobStore.cpp:355-369 | a run is as it was after pruning, or gone, and then it was final |
| JobService.Concluded | src/orcha/jobs/JobService.hpp:67-91 | success is the engine's success, with its results and no error; cancelled exactly a run that did not succeed and was asked to stop, with a message; otherwise failed with the engine's error |
| JobService.StoreFinal | src/orcha/jobs/JobService.hpp:93-103 | the final record is stored, without its result if it must be, or the run was no longer live, or both writes failed |
| JobService.Execute | src/orcha/jobs/JobService.hpp:62-105 | a live run ends with the status of its outcome stored unless both final writes fail |
| NestedRuns.RunDeadline | src/orcha/workflow/WorkflowEngine.cpp:315-328 | a run's deadline is its own limit or the calling step's deadline, whichever comes first, and none exactly if neither is set |
| NestedRuns.StepDeadline | src/orcha/workflow/WorkflowEngine.cpp:364-374 | a step's deadline is its own limit or the run's deadline, whichever comes first, and none exactly if neither is set |
| NestedRuns.ExecuteWithControl | src/orcha/jobs/RunJobCommand.hpp:57-93 | the guard that applies decides; the thread's context is restored however it ends; every nested run is under a distinct stack of at most 16 jobs and ends by its calling step's deadline; the mutual recursion terminates, whatever jobs are saved at each call |
| NestedRuns.RunSavedJob | src/orcha/jobs/JobService.hpp:117-133 | the same of a job's run with the runs nested in it |
| NestedRuns.RunSteps | src/orcha/workflow/WorkflowEngine.cpp:471-491 | parallel steps run under the captured context, so the guards hold there too |
| DependencyResolver.Sort | src/orcha/core/DependencyResolver.hpp:133-160 | for any order of the ready queue: what is placed has its dependencies before it, and what is left over waits for what is left over |
| DependencyResolver.StuckIsCyclic | src/orcha/core/DependencyResolver.hpp:162-166 | plugins that all wait for one another contain a cycle |
| DependencyResolver.OrderedIsAcyclic | src/orcha/core/DependencyResolver.hpp:148-160 | a dependencies-first order of everything rules out cycles |
| DependencyResolver.Resolve | src/orcha/core/DependencyResolver.hpp:85-169 | Ok exactly if names are distinct, there is no cycle and, if strict, nothing is missing; then a permutation with every available dependency first; otherwise the first missing dependency or a report |
| DependencyResolver.CycleFinder.Dfs | src/orcha/core/DependencyResolver.hpp:227-251 | the recursion over the shared states and path terminates and does what the search does |
| DependencyResolver.SearchExplores | src/orcha/core/DependencyResolver.hpp:227-251 | the search stops only at a dependency back into its path; else it has finished the node after all it depends on |
| DependencyResolver.ExtractCycle | src/orcha/core/DependencyResolver.hpp:257-269 | each plugin of the report depends on the next, and a prefix of it closes into a cycle |
| DependencyResolver.FindCycle | src/orcha/core/DependencyResolver.hpp:215-275 | for distinct names a report is found exactly when there is a cycle; it is the one the order of plugins and dependencies determines |
| CycleReports.ReportIsCycle | src/orcha/core/DependencyResolver.hpp:253-271 | where no elementary cycle leads to one with other plugins, the whole report is an elementary cycle |
| CycleReports.ReportNeedNotBeCycle | src/orcha/core/DependencyResolver.hpp:257-269 | four plugins, under any names, whose report is not a cycle |
| NameGlob.NameMatches | src/orcha/core/PluginPackage.cpp:259-270 | the loop with one backtrack point terminates, only accepts names the pattern means, and for names without '*' accepts all of them |
| NameGlob.SecondStar | src/orcha/core/PluginPackage.cpp:262-263 | meeting a second '*' makes the first one's choice final |
| NameGlob.StarTakesOneMore | src/orcha/core/PluginPackage.cpp:265 | backtracking by one character tries every length |
| NameGlob.LiteralPrefix | src/orcha/core/PluginPackage.cpp:261 | between stars a match is character by character |
| NameGlob.ScopeCovers | src/orcha/core/PluginInstaller.cpp:318-325 | a key's scope covers a valid name exactly if one of its patterns means it |
| Base64.EncodeBytes | src/orcha/core/PluginPackage.cpp:168-193 | the encoder's loop and last group give the encoding of section 4 of RFC 4648 |
| Base64.SextetsCarryTheBits | src/orcha/core/PluginPackage.cpp:168-193 | the encoding's sextets carry the bytes' bits, followed by zero bits |
| Base64.WordBits | src/orcha/core/PluginPackage.cpp:152-158 | wrap-around of the 32-bit accumulator reaches no bit in use |
| Base64.LeftoverBits | src/orcha/core/PluginPackage.cpp:161-165 | the leftover-bits check passes exactly on data that is an encoding |
| Base64.Decode | src/orcha/core/PluginPackage.cpp:137-166 | the decoder returns what the text denotes, and nothing exactly when it denotes nothing |
| Base64.RoundTrip | src/orcha/core/PluginPackage.cpp:137-193 | the encoding of any bytes denotes them |
| Base64.DenotesOne | src/orcha/core/PluginPackage.cpp:137-166 | a text denotes at most one byte string |
| Base64.Canonical | src/orcha/core/PluginPackage.cpp:137-166 | an accepted text without whitespace and '=' is the encoding without '=' |
| Base64.EncodeAndDecode | src/orcha/core/PluginPackage.cpp:137-193 | decoding what the encoder returns gives the bytes back |
| Base64.DecodeAndEncode | src/orcha/core/PluginPackage.cpp:137-193 | encoding what the decoder returns gives the text back but for whitespace and '=', and the text itself exactly if it has no whitespace and as many '=' |
| Base64.CanonicalText | src/orcha/core/PluginPackage.cpp:146-149 | an accepted text is the encoding itself exactly if it has no whitespace and the right number of '=' |
| Base64.PaddingIsNotCounted | src/orcha/core/PluginPackage.cpp:146-149 | one byte string with two texts accepted beside its encoding |
| YamlConvert.NodeSize | src/orcha/utils/YamlJson.cpp:205-212 | a conversion makes no more values than it has counted, through aliases and merges |
| YamlConvert.NodeFits | src/orcha/utils/YamlJson.cpp:216-228 | and nests no deeper than the limit allows from where it stands |
| YamlConvert.KeysAreStable | src/orcha/utils/YamlJson.cpp:176-189 | a conversion that succeeds has followed all merges: looking further finds no other source of a key |
| YamlConvert.MergeIs | src/orcha/utils/YamlJson.cpp:184-187 | merging adds exactly the members of keys neither own nor merged before, and keeps keys distinct |
| YamlConvert.NodeMeans | src/orcha/utils/YamlJson.cpp:161-235 | a successful conversion gives what the document means: distinct keys, own ones winning, otherwise the first merge source that has the key |
| YamlUnfolding.NodeConverts | src/orcha/utils/YamlJson.cpp:204-235 | a node with a finite unfolding within the limits, all of whose nodes are sound, converts, and counts exactly the nodes visited |
| YamlUnfolding.NodeUnfolds | src/orcha/utils/YamlJson.cpp:204-235 | a node that converts has such an unfolding, of as many visits as it has counted |
| YamlUnfolding.ConvertsExactly | src/orcha/utils/YamlJson.cpp:161-235 | a document converts if and only if it unfolds finitely, merge sources included, to at most the allowed visits and nesting, every scalar reached resolves, every key reached is a scalar set once, and every merge source is a mapping |
| YamlErrors.NodeError | src/orcha/utils/YamlJson.cpp:161-235 | what an error says is true: too large or too deep is every unfolding, and any other error is a fault of a node the document reaches |
| YamlConverter.Converter.Node | src/orcha/utils/YamlJson.cpp:204-235 | the recursion that threads the counter computes the conversion `YamlUnfolding.ConvertsExactly` and `YamlConvert.NodeMeans` are about, and the first error, and terminates on cyclic documents |
| YamlConverter.Converter.Map | src/orcha/utils/YamlJson.cpp:161-202 | so do the two passes over a mapping with their own and merged sets |
| YamlConverter.CollectOwn | src/orcha/utils/YamlJson.cpp:164-174 | the first pass finds the keys the mapping sets, or the first bad one |
| YamlConverter.Append | src/orcha/utils/YamlJson.cpp:184-187 | the merge loop appends what merging adds |
| YamlConverter.ConvertDocument | src/orcha/utils/YamlJson.cpp:161-235 | success exactly if the document has a finite sound unfolding within the limits; then what the root means, within both limits; on failure an error that is true of the document |
| YamlLiteral.WriteLiteral | src/orcha/utils/YamlJson.cpp:307-323 | the writer's loop emits the header and the indented lines |
| YamlLiteral.RoundTrip | src/orcha/utils/YamlJson.cpp:262-323 | every literal-safe string, written at an indent of 2 or more and read by section 8.1 of YAML 1.2.2, is itself again |
| YamlLiteral.ChompRestores | src/orcha/utils/YamlJson.cpp:308-312 | the header's chomping indicator restores exactly the trailing line breaks |
| YamlLiteral.MarkerBreaksTopLevel | src/orcha/utils/YamlJson.cpp:307-323 | at column 0 a line that is a document marker keeps the string from being read back |
| YamlLiteral.TopLevelExactly | src/orcha/utils/YamlJson.cpp:276-280 | a string that is the whole document is read back if and only if no line of it is a document marker |
| YamlLiteral.MarkerExample | src/orcha/utils/YamlJson.cpp:262-269 | a literal-safe string that is not read back at column 0 |
| CircuitBreaker.CircuitBreaker.AllowRequest | src/orcha/core/CircuitBreaker.hpp:111-139 | which requests are admitted, and what that changes |
| CircuitBreaker.CircuitBreaker.RecordSuccess | src/orcha/core/CircuitBreaker.hpp:144-168 | the whole new state after a success in each state |
| CircuitBreaker.CircuitBreaker.RecordFailure | src/orcha/core/CircuitBreaker.hpp:173-199 | the whole new state after a failure in each state |
| CircuitBreaker.CircuitBreaker.ResetCircuit | src/orcha/core/CircuitBreaker.hpp:299-306 | what a reset clears, and that it clears no more |
| CircuitBreaker.InvAlways | src/orcha/core/CircuitBreaker.hpp:111-207 | over every call sequence: a probe in flight means half-open; half-open successes are zero or below the threshold, and zero elsewhere; a circuit not closed has the failures it takes |
| CircuitBreaker.FailureCountIs | src/orcha/core/CircuitBreaker.hpp:144-199 | the failure count is the failures since the last reset or success recorded while closed |
| CircuitBreaker.CountsAre | src/orcha/core/CircuitBreaker.hpp:147-177 | calls and successes are counted from the start, across resets |
| CircuitBreaker.TotalFailuresAre | src/orcha/core/CircuitBreaker.hpp:299-306 | total failures are counted from the last reset |
| CircuitBreaker.HalfOpenSuccessesAre | src/orcha/core/CircuitBreaker.hpp:157-161 | half-open successes are the successes recorded since the circuit became half-open |
| CircuitBreaker.LeavesClosed | src/orcha/core/CircuitBreaker.hpp:173-187 | over every history, a closed circuit opens exactly on a failure that brings the failures since the last clearing call to the threshold |
| CircuitBreaker.LeavesOpen | src/orcha/core/CircuitBreaker.hpp:118-127 | an open one becomes half-open exactly with a request from the reset timeout after the failure that opened it, and closes only with a reset |
| CircuitBreaker.LeavesHalfOpen | src/orcha/core/CircuitBreaker.hpp:144-199 | a half-open one closes exactly with a reset or a success that brings the successes since to the threshold, and opens exactly with a failure |
| CircuitBreaker.AdmittedHalfOpen | src/orcha/core/CircuitBreaker.hpp:129-136 | half-open, a request is admitted exactly if the call before it was no request |
| CircuitBreaker.RejectionsAre | src/orcha/core/CircuitBreaker.hpp:118-133 | the rejected count is the number of requests refused |
| CircuitBreaker.LastFailureIs | src/orcha/core/CircuitBreaker.hpp:173-179 | the last failure's time is that of the latest failure recorded |
| CircuitBreaker.ProbeForgivesNothing | src/orcha/core/CircuitBreaker.hpp:157-162 | after a successful probe has closed the circuit the next failure opens it |
| CircuitBreaker.AdmittedAfterTimeout | src/orcha/core/CircuitBreaker.hpp:118-127 | while open, a request is admitted exactly from the reset timeout after the failure that opened the circuit |
| CircuitBreaker.OneProbe | src/orcha/core/CircuitBreaker.hpp:129-136 | with nothing outstanding on entering half-open, the requests outstanding are the probe, if one is in flight |
| CircuitBreaker.StaleOutcomeAdmitsSecondProbe | src/orcha/core/CircuitBreaker.hpp:204-207 | whenever a request is outstanding on entering half-open, abandoning it and asking again leaves two probes outstanding |
| CircuitBreaker.OneProbeExactly | src/orcha/core/CircuitBreaker.hpp:111-207 | for every configuration and history that enters half-open, at most one probe is out in every continuation there if and only if nothing was outstanding |
| CircuitBreaker.StaleRequestIsPossible | src/orcha/core/CircuitBreaker.hpp:173-199 | a history that enters half-open with a request outstanding |
| Logger.EventKeepsInv | src/orcha/utils/Logger.cpp:56-137 | every event keeps enqueued = output + batch + queue, in order |
| Logger.Conservation | src/orcha/utils/Logger.cpp:56-137 | in every reachable state the counters add up and queued entries reach the output once each, in enqueue order |
| Logger.EveryEntryIsKept | src/orcha/utils/Logger.cpp:46-68 | over any run, the entries accepted are those of the calls that enqueue and the lines written directly those of the other calls, each in order and once |
| Logger.FlushMeansOutput | src/orcha/utils/Logger.cpp:152-156 | a flush that returns while the writer runs means all entries enqueued before it are output |
| Logger.FlushKeptWithoutShutdown | src/orcha/utils/Logger.cpp:152-156 | a flush before whose return no shutdown begins keeps its promise |
| Logger.FlushDuringShutdown | src/orcha/utils/Logger.cpp:152-156 | in every reachable running state with an entry not yet output, a shutdown makes a flush called there return without it |
| Logger.FlushAlwaysKeptExactly | src/orcha/utils/Logger.cpp:152-166 | a flush keeps its promise in every continuation if and only if everything accepted when it is called is already output |
| Logger.ShutdownMeansOutput | src/orcha/utils/Logger.cpp:158-179 | once the writer is joined every entry ever enqueued is output, for good |
| Logger.WriterCanGoOn | src/orcha/utils/Logger.cpp:116-137 | until the writer that shutdown joins has ended, it has an event it can do |
| Logger.JoinReturns | src/orcha/utils/Logger.cpp:158-179 | once shutdown has begun, the writer has at most six more events until it has ended, whatever else happens |
| Logger.Logger.Log | src/orcha/utils/Logger.cpp:46-68 | an entry below the level is dropped, else enqueued, or written directly once shutdown has begun |
| Logger.Logger.WriteEntries | src/orcha/utils/Logger.cpp:139-150 | the batch reaches the output entry by entry |

## Left out

- The HTTP server, routes, dashboard, authentication, child processes and the HTTP client: input and output plumbing.
- SQLite, yaml-cpp, nlohmann/json, OpenSSL and dlopen: the run table is rows with the statements' effect, a YAML document an already parsed graph of nodes, loading a library a choice.
- Real time and memory ordering: clocks are readings given to the calls, and a critical section is one step. Crashes are of the process; power loss and torn file writes are not modelled.
- Failing file operations of an install other than a failed load and a crash, and the normalisation of paths: a path is its list of names.
- `version_change`, `CronExpr`, `JobScheduler`, `PluginSources`, configuration, the service locator and the formatting of log lines: they would add only easy members.
- `resolve_plain_scalar` and the tags of scalars: the conversion takes the resolution of scalars as a parameter. Quoting and flow style of the YAML writer: only literal blocks are modelled.
- The `Retry-After` estimate of the run queue, in floating point.
- Runs of `run_job` in the run table: nested runs are not events of the machine in `RunQueue`; they are modelled in `NestedRuns`.
- `WorkflowConfluence.Confluence`: assumes no cancellation, deadline or open breaker, and commands that are functions of their parameters, as the promise does; `WorkflowRun.Execute` covers the others by circumstances given for each step, for which it states the finished run and its rollback, not independence of the schedule.
- `WorkflowRace.RaceFreeExactly`: an equivalence for distinct names. Where names are repeated, `WorkflowRace.Races` still gives the race for every reference that no earlier step answers; one that an earlier step of the same name answers may meet a later step that returns the same.
- `CycleReports.ReportIsCycle`: a condition on the graph that suffices. Where cycles lead to one another, whether the report is one also depends on the order in which plugins and dependencies are listed.
- `RunQueue.WaitReturnsStored`: assumes that every final status write has succeeded in one of its attempts and that one process owns the runs; without that the store keeps a live row.
- Floating point values: a JSON float is known by its printed text.
