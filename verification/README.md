# HoH: verified models of the control plane's algorithms and protocols

HoH drives agents against git repositories. Most of it is process and network plumbing; these files
model the parts that hold real algorithms or protocols and prove what those are relied on for.
`dafny verify dfyconfig.toml` checks everything.

| files | model |
|---|---|
| `DeadCode.dfy`, `UnreachableFindings.dfy`, `DeadCodeSoundness.dfy`, `ExitMeaning.dfy` | the unreachable-statement analysis, against a semantics of structured statements |
| `DottedNames.dfy`, `ImportGraph.dfy`, `Reachability.dfy`, `UnusedFiles.dfy`, `AbsoluteImports.dfy` | import resolution by longest prefix, reachability, unused files |
| `TaskGraph.dfy` | the check of a plan's dependencies |
| `TaskStore.dfy`, `PathScopes.dfy`, `PlanProgress.dfy` | the task queue as the scheduler uses it, and why an accepted plan cannot stall |
| `TaskRuns.dfy`, `TurnResults.dfy`, `Settlements.dfy` | one claimed task's run, the ledger of canonical operations, and the settlement accounts |
| `QueueLoop.dfy`, `RunLoop.dfy`, `LedgerRollbacks.dfy` | the scheduler and its loop, and what a rollback completed by the ledger does to a run |
| `Lease.dfy`, `LeaseExclusion.dfy`, `LeaseRecovery.dfy`, `LeaseTiming.dfy` | the cross-process lease: exclusion, recovery, polling |
| `DurableLog.dfy`, `LogSafety.dfy`, `Jsonl.dfy` | the append-only log under that lease, and its text format |
| `Sse.dfy`, `EventStreamRoundTrip.dfy` | the event-stream parser of the A2A client |
| `Json.dfy`, `Deduplication.dfy`, `StreamFold.dfy`, `TaskStates.dfy`, `StreamReplay.dfy`, `SendMessage.dfy` | turning A2A events into a result; streaming, polling, push |
| `PushInbox.dfy`, `PushDelivery.dfy`, `PushOutcome.dfy` | the inbox for pushed events and its reader |
| `Receivers.dfy`, `ReceiverSharing.dfy` | the shared receivers that fill it |
| `Acp.dfy`, `AcpMeaning.dfy`, `AcpSessions.dfy` | the JSON-RPC client over an agent's standard streams |
| `Usage.dfy`, `UsageSink.dfy`, `UsageMaxima.dfy`, `UsageTexts.dfy`, `RecordedEvent.dfy` | usage accounting of one call |
| `TextOrder.dfy`, `UsageSummary.dfy`, `SummaryMeaning.dfy`, `UsageConservation.dfy` | the summary of the usage ledger |

Code that updates state is modelled by classes and loops, each proved against a specification
function or predicate; what the code is for is then proved about that specification. Protocols with
several participants (the lease, the log, the receivers, the inbox with its reader) are step machines,
and their theorems hold for every schedule of steps. Clocks, networks, worker processes, failures and
crashes are inputs, over all of which the theorems quantify. Library functions that the result does not
depend on (`str.upper`, `casefold`, `json.dumps`, `float`, ...) are parameters.

## Where the code and its documentation or purpose part

Each of these is proved, by an input that shows it and, where a condition is named, by that condition in
both directions.

- A claimed task is not always settled exactly once. After an exception the ledger of canonical operations
  may find the task's commit and record its result; the scheduler then records a failure on top, so the
  task has two runs and ends as failed although its commit stands (`CommittedTaskFails`). A task is settled
  exactly once if and only if it is reported as blocked on reconciliation just when the ledger recorded
  its result (`SettledOnceExactlyWhen`, `TurnSettlesOnceExactlyWhen`, and `RunSettlesOnceExactlyWhen` for
  whole runs).
- A task requeued on lock contention after its commit was made makes every later reconciliation raise, and
  so the queue stops (`RequeuedCommitStopsTheQueue`). `ReconcileSucceedsExactlyWhen` says exactly which found
  commits and rollbacks a reconciliation can complete.
- Claiming a batch and journalling its start are not guarded: an exception there leaves the loop with the
  claimed tasks still running (`Crashed`).
- An absolute `from pkg.m import x` inside a package is resolved relative to that package
  (`language_audit.py:230-236` adds the package also at level 0), so the imported file can be reported
  as unused (`ImportedFileReported`). An import asks for the names that Python would look up if and only if
  it is no absolute from-import or its file is in no package (`ImportIsExactExactlyWhen`).
- Without configured entry points deleting the unused files can expose more (`NonStrictDeletionExposes`). It
  is final if and only if every private file that is kept is imported by a kept file
  (`NonStrictDeletionIsFinalExactlyWhen`). With entry points it is always final.
- A record that contains U+0085, U+2028 or U+2029 is written raw and makes the log unreadable
  (`Jsonl.ReadBack`), and it is the last record the log ever takes (`LogTakesUpToFirstWideBreak`).
- An unlocked reader can see a record that a power cut then removes, because the log is renamed into
  place before its directory is synced (`PowerCutCanUnread`, `ReaderSeesPrefixUnlessCut`). A record whose
  call returned is safe. For the same reason a call can raise with its record in the log
  (`RaisedButWritten`).
- A metrics sink can therefore record one invocation twice (`InvocationRecordedTwice`): it tries again after a
  record that raised. It records at most once if and only if no record that wrote and raised is followed
  by another that writes, before one returns (`OneEventExactlyWhen`).
- An interrupt while a lease is being acquired is not caught and keeps the thread lock
  (`AcquireRestoresExactlyWhen`); the other threads of the process never get it again
  (`InterruptLocksOthersOut`).
- A payload line of an event stream that ends in CR is not read back as it was written, and no other is
  (`RoundTrip`). Of section 9.2.6 of the HTML Living Standard, the parser does not skip a byte order mark
  (`ByteOrderMarkHidesLine`), ignores a line `data` without a colon (`BareDataIsIgnored`), and dispatches a
  pending event at end of input (`EndOfInputDispatches`).
- A replayed older event can take a finished A2A task back to an earlier state
  (`ReplayCanUndoCompletion`); `ReplayKeepsResult` says exactly when a replay changes anything.
- A push reader that has received as many events as an inbox list may hold receives nothing more
  (`CursorSticksAtCap`); delivery is exact if and only if there are no more than that (`DeliveryIsExact`).
- The cost of a call is the largest amount reported, but in the currency reported last
  (`LargestAmountLastCurrency`). Of two costs, the one recorded was reported if and only if the second is no
  smaller or the currencies are the same (`TwoCosts`).
- A call whose process was ended by a signal, and so has a negative return code, is recorded as a success
  (`SignalledIsSuccess`): negative numbers are read as no number.
- A token count reported as 12 and again as the text `"12.0"` is recorded as 12 if the number comes last and
  not at all if the text does (`TextTieIsNotRecorded`). The recorded integer is independent of the order of
  the payloads if and only if all the largest values they contribute are the same integer
  (`PayloadOrderIgnoredExactlyWhen`; `IntegerIgnoresOrderExactlyWhen` for single values).
- Costs are rounded at every addition, so their sum can depend on the order of the ledger
  (`CostsDependOnOrder`). It does not if and only if no amount is half way between two units of the eighth
  decimal, or every other amount rounds to an even number of units (`CostIgnoresOrderExactlyWhen`).

One effect is documented but easily overlooked: running the queue can change a done task, since the
reconciliation before a claim completes a rollback that was interrupted after its commit
(`RollbackIsCompleted`). Queued tasks further down then wait for a stuck one (`RollbackStrands`), the plan
stalls if and only if every task that could run depends on the rolled-back one directly
(`RollbackStallsExactlyWhen`), and such a run is never handed off (`RolledBackRunIsNotHandedOff`).

## Model

| member | source | states |
|---|---|---|
| UnreachableFindings.ScanBlock | src/llm_harness/language_audit.py:150-166 | The flag loop over one statement list reports exactly the statement that follows the first exit, or nothing. |
| UnreachableFindings.FindUnreachable | src/llm_harness/language_audit.py:142-166 | The walk over the whole tree reports, in the order of the walk, exactly what each statement list contributes, dead code included. |
| UnreachableFindings.WalkFindsReported | src/llm_harness/language_audit.py:142-166 | The findings of a walk are, as a multiset, those the statement lists call for. |
| DeadCodeSoundness.CutPreservesRuns | src/llm_harness/language_audit.py:150-166 | Cutting every list after its first return, raise, break or continue leaves outcome, state and trace of every run unchanged, in every environment, also of runs that do not end. |
| DeadCodeSoundness.NothingAfterAnExitRuns | src/llm_harness/language_audit.py:150-166 | No statement after an exit in its list, and nothing nested in one, is ever begun. |
| DeadCodeSoundness.RunIsTraced | src/llm_harness/language_audit.py:142-166 | Every statement that a run begins is in its trace. |
| DeadCodeSoundness.ReportMeaning | src/llm_harness/language_audit.py:150-166 | A statement is reported if and only if it comes directly after the first exit of some list at any depth. |
| DeadCodeSoundness.ReportedNeverRuns | src/llm_harness/language_audit.py:150-166 | A reported statement is never begun in any run. |
| DeadCodeSoundness.CleanMeansUncut | src/llm_harness/language_audit.py:150-166 | Nothing is reported if and only if there is nothing to cut. |
| DeadCodeSoundness.CutIsClean | src/llm_harness/language_audit.py:150-166 | After cutting, a second analysis reports nothing. |
| ExitMeaning.SimpleIsExitExactlyWhen | src/llm_harness/language_audit.py:166 | A statement without statement lists of its own counts as an exit if and only if no run ever passes it, whatever the environment answers. |
| ExitMeaning.FoundExactlyWhenBehind | src/llm_harness/language_audit.py:142-166 | The analyser finds a statement if and only if, in some list at any depth, it stands directly behind the first simple statement that no run ever passes. |
| DottedNames.JoinSplit | src/llm_harness/language_audit.py:249-265 | Joining the dotted parts of a name gives the name back. |
| ImportGraph.ResolveIsLongestMatch | src/llm_harness/language_audit.py:259-265 | Resolution finds the longest dotted prefix that is a module, and fails only if no prefix is one. |
| ImportGraph.LongestModuleMatch | src/llm_harness/language_audit.py:259-265 | The shortening loop computes that longest match. |
| ImportGraph.CollectModules | src/llm_harness/language_audit.py:212-217 | The module table maps each name to the last file that bears it. |
| ImportGraph.FileEdges | src/llm_harness/language_audit.py:220-245 | The edges of a file are the files, other than itself, to which some import of it resolves. |
| ImportGraph.PythonImportGraph | src/llm_harness/language_audit.py:207-246 | The graph has exactly the given files as nodes and their resolved imports as edges. |
| Reachability.Reachable | src/llm_harness/language_audit.py:430-439 | The worklist ends, though it may grow with duplicates, and its result is the reflexive-transitive closure of the roots. |
| UnusedFiles.CountIncoming | src/llm_harness/language_audit.py:370-373 | The counters hold the number of importers of each file. |
| UnusedFiles.UnusedFileFindings | src/llm_harness/language_audit.py:354-392 | The findings are the unused files, in file order: with entry points the files outside the closure. |
| UnusedFiles.DeletionIsFinal | src/llm_harness/language_audit.py:354-392 | With entry points: after deleting every finding and resolving all imports afresh, the analysis reports nothing. |
| UnusedFiles.ResolveKept | src/llm_harness/language_audit.py:259-265 | Deleting unreachable files leaves the resolution of the remaining imports as it was. |
| UnusedFiles.NonStrictMeaning | src/llm_harness/language_audit.py:376-380 | Without entry points a file is reported if and only if it is no inferred root, has a private name and no importer. |
| UnusedFiles.NonStrictDeletionIsFinalExactlyWhen | src/llm_harness/language_audit.py:376-380 | Without entry points: after deleting every finding and resolving all imports afresh the analysis reports nothing if and only if every kept private file is imported by a kept file. |
| UnusedFiles.NonStrictDeletionExposes | src/llm_harness/language_audit.py:376-380 | Two source files for which deleting the finding creates another one. |
| AbsoluteImports.AbsoluteFromIsExactAtTopLevel | src/llm_harness/language_audit.py:230-236 | The prefix of an absolute from-import is the named module if and only if the importer lies in no package. |
| AbsoluteImports.ImportIsExactExactlyWhen | src/llm_harness/language_audit.py:226-240 | An import asks for the names Python would look up if and only if it is no absolute from-import or its file is in no package; relative imports are exact. |
| AbsoluteImports.EdgesAreExact | src/llm_harness/language_audit.py:220-245 | The edges of a file in no package, or without absolute from-imports, are those of the modules Python would import. |
| AbsoluteImports.ImportedFileReported | src/llm_harness/language_audit.py:230-236 | A file imported absolutely by the only entry point of its package is reported as unused. |
| AbsoluteImports.FromImportNames | src/llm_harness/language_audit.py:234-241 | A from-import asks for its prefix, if that is not empty, for each imported name but the star below it, and for nothing else. |
| AbsoluteImports.TopLevelFromImport | src/llm_harness/language_audit.py:220-245 | A file in no package that says `from m import x` has an edge to the file of module `m.x`. |
| AbsoluteImports.SiblingImport | src/llm_harness/language_audit.py:220-245 | `from . import x` gives a module an edge to its sibling `x`, and a package to its own module `x`. |
| AbsoluteImports.TooManyDots | src/llm_harness/language_audit.py:231-234 | With more dots than enclosing packages, which Python refuses, names are looked up from the top. |
| TaskGraph.Visitor.Visit | src/llm_harness/lifecycle.py:312-324 | The recursive visit ends, and either puts the task into `visited` after its dependencies or returns a genuine closed walk. |
| TaskGraph.CheckEach | src/llm_harness/lifecycle.py:301-308 | The first task with an unknown or repeated dependency is reported, unknown ones first. |
| TaskGraph.CheckPlan | src/llm_harness/lifecycle.py:299-327 | A plan is accepted if and only if its ids are unique and its dependencies known, distinct and acyclic; a reported cycle is one, and every other rejection names the first offender. |
| TaskGraph.OrderedIsAcyclic | src/llm_harness/lifecycle.py:311-327 | A graph whose tasks can be listed after their dependencies has no cycle. |
| TaskStore.Store.Schedule | src/llm_harness/state.py:310-350 | The schedule lists exactly the ready tasks, by priority and then age, and the waiting ones in queue order with the dependencies they wait for. |
| TaskStore.WaitingMeaning | src/llm_harness/state.py:310-350 | Tasks wait if and only if some are queued and not ready. |
| TaskStore.Store.ClaimBatch | src/llm_harness/state.py:376-398 | A claim moves a whole batch from queued to running and counts one attempt for each: ready tasks, most urgent first, pairwise disjoint in their paths, none left out that would fit. |
| TaskStore.Store.ScheduleBatch | src/llm_harness/state.py:291-308 | The batch leads with the most urgent ready task, is empty only if nothing is ready, has disjoint paths, and leaves out of a batch with room only tasks that overlap a more urgent member. |
| TaskStore.Greedy | src/llm_harness/state.py:294-308 | The greedy loop chooses pairwise disjoint tasks in urgency order, led by the first, and passes over only crowded ones. |
| PathScopes.ConflictExactlyWhenShared | src/llm_harness/state.py:1064-1075 | Two path scopes conflict if and only if some path is covered by both, where an empty scope and the wildcard cover everything. |
| PathScopes.BatchSharesNothing | src/llm_harness/state.py:291-308 | No path is covered by two tasks of a batch. |
| PlanProgress.StalledExactlyWhenAllWait | README.md:678-694 | The plan is stalled if and only if every queued task waits, through queued tasks, for one that is neither queued nor done. |
| PlanProgress.AcceptedPlanProgresses | src/llm_harness/lifecycle.py:299-327 | In an accepted plan a queued task implies a runnable one, unless some plan task is neither queued nor done. |
| PlanProgress.BlockedQueueHasStuckTask | src/llm_harness/cli.py:3958-3990 | When the scheduler reports `dependency_blocked` on an accepted plan, some task of the plan is neither queued nor done, and every queued one waits for such a task. |
| TaskRuns.RunTask | src/llm_harness/cli.py:4031-4098 | One claimed task takes its turn: the ledger is asked before its patch and after an exception, and what is recorded, requeued or left is what the turn says. |
| TurnResults.ResultDecidesStatus | src/llm_harness/cli.py:4101-4198 | A turn records its worker's result if and only if the worker finished, the ledger was in order before the patch and the task still runs. It leaves the task done if and only if the worker was ok and no review is required or the critic approved; each of rework required, escalated, review pending and failed has its own condition; and what is returned says so. |
| TurnResults.LedgerResultDecidesStatus | src/llm_harness/operations.py:284-303 | A result that the ledger records puts the task under review if and only if its run wants that; otherwise the task is done, or rolled back if the same reconciliation completes its rollback. |
| TaskRuns.ReconcileLedger | src/llm_harness/operations.py:241-252 | A reconciliation completes what it finds one after the other, results of running tasks and rollbacks of done ones, and raises at the first task that is in another status. |
| TaskStore.Store.CompleteRollback | src/llm_harness/state.py:691-728 | A rollback is completed exactly if its task is done, and then the task is rolled back; any other task raises and stays as it is. |
| Settlements.ReconcileSucceedsExactlyWhen | src/llm_harness/operations.py:284-303 | A reconciliation can complete everything it finds if and only if each commit is of a running task not found before, and each rollback of a done task not found before or of a running one of which only a commit without review was found before. |
| Accounts.TurnShape | src/llm_harness/cli.py:4031-4098 | A turn touches no other task but by the results and rollbacks that the ledger completes, and its outcome tells how its own task ended. |
| Settlements.SettledOnceExactlyWhen | src/llm_harness/cli.py:4309-4388 | A claimed task is settled exactly once if and only if it is reported as blocked on reconciliation just when the ledger recorded its result; twice, ending as failed, when recorded and not so reported; not at all when so reported and not recorded. |
| Settlements.TurnSettlesOnceExactlyWhen | src/llm_harness/cli.py:4062-4091 | In terms of what happens: a turn settles its task once if and only if, should the ledger be asked, it leaves something unresolved just when it finds the task's own commit. |
| Settlements.CommittedTaskFails | src/llm_harness/supervisor.py:346-366 | The input with two settlements: an exception after the commit. |
| Settlements.RequeuedCommitStopsTheQueue | src/llm_harness/state.py:423-465 | A committed task that was requeued makes every later reconciliation that finds it raise. |
| Scheduler.RunNext | src/llm_harness/cli.py:3916-4098 | One call ends with the start-up reconciliation, or reports an empty or blocked queue exactly then, or claims the most urgent ready task, unless the claim is refused or the task is escalated at its attempt limit; apart from that task the store changes only by the ledger's results (running to done or review), its rollbacks (done to rolled back) and the one escalation. |
| Scheduler.RunEach | src/llm_harness/cli.py:4305-4389 | The claimed tasks take their turns one after the other in claim order, each with its own worker run, and have one outcome each, until an exception leaves the scheduler. |
| Scheduler.RunReadyBatch | src/llm_harness/cli.py:4201-4389 | The scheduler settles exactly the claimed tasks not reported as blocked on reconciliation, in claim order, with one outcome per claimed task; other tasks change only by the ledger's results and rollbacks or one escalation; unguarded exceptions end it without outcomes. |
| Scheduler.WideBatch | src/llm_harness/cli.py:4253-4256 | A claim is as wide as the schedule that announced it: at least two. |
| RunLoop.Handle | src/llm_harness/cli.py:4582-4723 | One outcome is counted, and the loop stops or goes on with its books in order. |
| RunLoop.Loop | src/llm_harness/cli.py:4511-4741 | `completed` is the number of ok events and never exceeds a positive limit; no batch starts after a blocked outcome; all outcomes of a batch are processed; all claims and settlements of the run are accounted for; without a limit the loop still ends. |
| RunLoop.QueueRunLoop | src/llm_harness/cli.py:4392-4741 | The same with the checks before the loop, each of which has its exact condition; the exit code is 0 exactly at the named ends and never after a blocked outcome; a blocked queue has a stuck task behind it; at an empty queue the handoff, if one is wanted, means what it says. |
| RunLoop.HandoffExactlyWhen | src/llm_harness/cli.py:4744-4897 | The final handoff is made if and only if every task is done, no review is open, nothing waits for reconciliation and the audit is ok; a failed audit and each of the three blocked handoffs have their own condition. |
| RunLoop.RunSettlesOnceExactlyWhen | src/llm_harness/cli.py:4511-4741 | Over a whole run no task is claimed twice, each claimed task is settled once under the same condition, and every other task is as it was, recorded or rolled back by the ledger, or escalated. |
| LedgerRollbacks.RollbackIsCompleted | src/llm_harness/operations.py:296-298 | A found rollback of a done task is completed by the reconciliation: the task is rolled back, nothing is claimed and no task is settled. |
| LedgerRollbacks.RollbackStallsExactlyWhen | README.md:737-740 | A completed rollback takes exactly the direct dependents from the tasks that can run; the plan is then stalled if and only if tasks are queued and all that could run depend on the rolled-back one. |
| LedgerRollbacks.RollbackStrands | README.md:737-740 | Every queued task that depends on the rolled-back one through queued tasks waits for a stuck task. |
| LedgerRollbacks.RolledBackRunIsNotHandedOff | README.md:753-754 | Over a whole run: a task whose rollback the ledger completed ends as rolled back, or as failed if it was claimed too; there is no handoff; and what is still queued and depends on it waits for a stuck task. |
| LeaseExclusion.LockInvStep | src/llm_harness/coordination.py:97-197 | Every step keeps: the thread lock count equals depth but for locks leaked by interrupts, other depths are 0, `_handle` is set exactly while held, the kernel lock has the matching owner. |
| LeaseExclusion.AtMostOneHolder | src/llm_harness/coordination.py:97-197 | After any schedule of threads, processes, failures and crashes at most one thread of one process holds the lease. |
| LeaseExclusion.FailedAcquireRestores | src/llm_harness/coordination.py:160-167 | A failed acquire gives back everything it took. |
| LeaseExclusion.AcquireRestoresExactlyWhen | src/llm_harness/coordination.py:117-167 | An acquire that ends without the lease gives the thread lock back if and only if no interrupt ends it. |
| LeaseExclusion.InterruptLeaksThreadLock | src/llm_harness/coordination.py:108-167 | In any run an interrupt that ends an acquire keeps every other thread of the process from the thread lock until the process ends, and leaves kernel lock and lease object as they were. |
| LeaseExclusion.InterruptLocksOthersOut | src/llm_harness/coordination.py:108-167 | After such an interrupt no other thread of the process gets the thread lock until the process ends. |
| LeaseMachine.EveryPhaseHasStep | src/llm_harness/coordination.py:97-197 | A thread inside acquire or release always has a next step, and a thread that holds the lease can give it back, in one way. |
| LeaseRecovery.ViewInvReachable | src/llm_harness/coordination.py:134-188 | The owner file, its history and the abandoned records stay consistent over every schedule. |
| LeaseRecovery.RecoveryIsExact | src/llm_harness/coordination.py:134-159 | An acquire records a recovered owner if and only if the last owner record was never marked as released, and names that record. |
| LeaseTiming.Acquire | src/llm_harness/coordination.py:104-132 | Contention, of the thread lock or of the kernel lock, is reported only at or after the deadline; the kernel lock is tried at most ceil(timeout / poll) + 1 times, and not at all when the lease is held already. |
| LeaseTiming.PollForLock | src/llm_harness/coordination.py:126-132 | The polling loop takes the lock at the first attempt the kernel grants. |
| LogSafety.StepKeeps | src/llm_harness/durable_io.py:27-97 | Every step of any thread, of the lease, of the disk or of a power cut keeps the invariant of the log. |
| LogSafety.NothingLostNothingTwice | src/llm_harness/journal.py:103-108 | After any schedule: an event whose `record` returned is in the log exactly once, any other at most once, on disk as well. |
| LogSafety.EachStepGrowsByOne | src/llm_harness/durable_io.py:90-97 | The log refines a growing sequence: a step leaves it or appends one event of the lease holder, power cuts aside. |
| LogSafety.ReaderSeesPrefixUnlessCut | src/llm_harness/durable_io.py:27-54 | What an unlocked reader saw stays a prefix if and only if the step is not a power cut that loses an unsynced rename. |
| LogSafety.ReaderSeesPrefix | src/llm_harness/durable_io.py:70-97 | Over any continuation without such a power cut a reader's view is a prefix of the final log. |
| LogSafety.ReturnedStays | src/llm_harness/metrics.py:69-75 | Once `record` has returned, its event outlives every later power cut. |
| LogSafety.PowerCutCanUnread | src/llm_harness/durable_io.py:44-46 | A schedule in which a reader sees an event that a power cut then removes. |
| LogSafety.EndsOfRecord | src/llm_harness/durable_io.py:27-54 | From any state a record by the holder of the lease returns with its event at the end of the log, on disk too, if nothing fails; raises and leaves the log as it was if it fails before or at the rename; and raises with its event in the log if the directory cannot be synced. |
| LogSafety.RaisedButWritten | src/llm_harness/durable_io.py:44-54 | A schedule in which `record` raises with its event in the log. |
| Jsonl.ReadJsonl | src/llm_harness/durable_io.py:70-87 | The records of all lines that are not blank, or the number of the first bad line. |
| Jsonl.LinesOf | src/llm_harness/durable_io.py:78 | A text falls into lines at each line break, where CR LF is one, and what is left at the end is a line if it is not empty. |
| Jsonl.BreaksAndSpaces | src/llm_harness/durable_io.py:78-79 | The characters that break lines and those that count as space, by code point. |
| Jsonl.LogFile.AtomicAppend | src/llm_harness/durable_io.py:90-97 | An append to a readable log rewrites it with one record more, even if it then raises; an unreadable log stays as it is. |
| Jsonl.ReadBack | src/llm_harness/durable_io.py:70-97 | Reading what was written gives the same records if and only if no record's text has U+0085, U+2028 or U+2029. |
| Jsonl.LogTakesUpToFirstWideBreak | src/llm_harness/durable_io.py:90-97 | Over a sequence of appends the log takes everything up to the first such record and nothing after it, and can be read if and only if there is none. |
| JsonStrings.StringsAreJson | src/llm_harness/durable_io.py:90-97 | What is assumed of the JSON codec holds of JSON strings. |
| EventStream.ReceiveEvents | src/llm_harness/a2a.py:682-706 | The line loop yields one object per payload, or the first error in stream order: a payload that is no object, or the size limit. |
| EventStream.BytesAreCharacters | src/llm_harness/a2a.py:696-706 | The bytes that end lines and fields are those of CR, LF, colon, space and `data:`. |
| EventStreamRoundTrip.ReadBackTrimmed | src/llm_harness/a2a.py:688-706 | Whatever comments and unknown fields stand between, with LF or CR LF, with or without the space after the colon, each written payload arrives, less the trailing CRs of its lines. |
| EventStreamRoundTrip.RoundTrip | src/llm_harness/a2a.py:688-706 | What is read is what was written if and only if no payload line ends in CR. |
| EventStreamRoundTrip.AnyPayloadsCanBeWritten | src/llm_harness/a2a.py:688-706 | Any payloads can be written as such rows, with or without the last blank line. |
| EventStreamRoundTrip.ReceivedAsWritten | src/llm_harness/a2a.py:682-706 | Within the limit the client gets the objects of the written payloads in order; beyond it an error. |
| EventStreamRoundTrip.EndOfInputDispatches | src/llm_harness/a2a.py:684-687 | End of input acts as a last line feed on every stream, and so dispatches a pending event. |
| EventStreamRoundTrip.ByteOrderMarkHidesLine | src/llm_harness/a2a.py:696-706 | A line that begins with a byte order mark is ignored. |
| EventStreamRoundTrip.BareDataIsIgnored | src/llm_harness/a2a.py:696-706 | A line `data` without a colon is ignored. |
| EventStreamRoundTrip.Split | src/llm_harness/a2a.py:696-706 | The lines of a payload hold no line feed, and joining them gives the payload back. |
| Deduplication.DistinctMeaning | src/llm_harness/a2a.py:793-800 | Deduplication keeps every key once, loses none, and keeps the order of first occurrence. |
| StreamFold.TaskId | src/llm_harness/a2a.py:818-820 | The id is that of the `id` field if it is a text, and of `taskId` only if `id` has no truthy value; it is never empty. |
| StreamFold.CollectParts | src/llm_harness/a2a.py:854-877 | The parts of a payload in the order own, artifacts, artifact, history, status message. |
| StreamFold.ExtractTexts | src/llm_harness/a2a.py:836-842 | The texts of all parts in order. |
| StreamFold.ExtractData | src/llm_harness/a2a.py:845-851 | The data objects of all parts in order. |
| StreamFold.StreamResult | src/llm_harness/a2a.py:780-807 | The loop computes the fold: distinct texts and data, last task named, last state named. |
| TaskStates.StreamIsInStateShown | src/llm_harness/a2a.py:810-829 | A stream whose last event carries an object that shows a state, in its `status` if that is an object and otherwise itself, with or without the prefix, is in that state. |
| TaskStates.MessageCompletesExactlyWhen | src/llm_harness/a2a.py:823-833 | An event without a text for its state completes the stream if and only if it is a message; otherwise it leaves the state as it was. |
| StreamReplay.ReplayKeepsContent | src/llm_harness/a2a.py:793-800 | Copies of earlier events inserted anywhere change neither texts nor data nor their order; this and the next three rows hold whatever the fold reads from an event. |
| StreamReplay.ReplayKeepsResult | src/llm_harness/a2a.py:780-807 | Such copies leave the whole result as it was if and only if they bring back no other state or task that later events do not name again. |
| StreamReplay.ReplayOfRecentEvents | src/llm_harness/a2a.py:480-487 | Replaying any latest part of the stream before any continuation changes nothing. |
| StreamReplay.FoldTwice | src/llm_harness/a2a.py:780-807 | Folding a stream followed by itself equals folding it once. |
| StreamReplay.ReplayCanUndoCompletion | src/llm_harness/a2a.py:787-791 | Events whose replay turns COMPLETED back into WORKING. |
| SendMessage.SendStreaming | src/llm_harness/a2a.py:477-497 | A second stream is used exactly if the first leaves its task unfinished; the result is returned if and only if it is presentable, and otherwise the error says why. A stream that ends in an object which shows the task completed is returned, and one that ends in a failure never is. |
| SendMessage.ResubscriptionIsSeamless | src/llm_harness/a2a.py:487-490 | An agent that repeats any latest part of the first stream on resubscription is understood as if it had sent one stream. |
| SendMessage.SendAndPoll | src/llm_harness/a2a.py:362-391 | Polling stops at the first failing or terminal answer and at the deadline if there is none, with the matching result; an answer that shows the task completed is returned at once, and one that shows a failure is the error. |
| SendMessage.WaitForPush | src/llm_harness/a2a.py:393-421 | The result is that of everything received up to the first wait after which the task is at an end; it is COMPLETED or an error. |
| SendMessage.Send | src/llm_harness/a2a.py:314-391 | On no path is a failure, or an identified task that is not COMPLETED, returned as a result. |
| PushInbox.A2APushInbox.Record | src/llm_harness/a2a_push.py:29-45 | A payload without exactly one event or without a task changes nothing; otherwise the event is added, the oldest list displaced if there is no room, and the list trimmed. |
| PushInbox.TakenExactlyWhen | src/llm_harness/a2a_push.py:29-35 | A payload is taken if and only if it holds just one event and names a task, by `taskId`, by `id` if that says nothing, or by its own `taskId` if neither does. |
| PushInbox.A2APushInbox.Look | src/llm_harness/a2a_push.py:47-55 | What follows the first `after` events of the task at one look, or nothing. |
| PushInbox.Wait | src/llm_harness/a2a_push.py:47-55 | The first look before the deadline that finds more than `after` events ends the wait; without one the answer is empty. |
| PushInbox.A2APushInbox.Discard | src/llm_harness/a2a_push.py:57-59 | The task's list goes, the others and their order stay. |
| PushDelivery.AlwaysFaithful | src/llm_harness/a2a_push.py:29-59 | In every run each list is the latest part, at most the cap long, of what came in since it was created; there are at most `max_tasks` lists; and the list displaced is the one created first. |
| PushDelivery.DeliveryIsExact | src/llm_harness/a2a.py:393-421 | While the task is not dropped, the reader holds a prefix of its events without gap, repetition or reordering, and after a wait all of them if and only if they are no more than the cap. |
| PushDelivery.CursorSticksAtCap | src/llm_harness/a2a_push.py:42-55 | A reader that has received as many events as the cap never receives another. |
| PushOutcome.OutcomeOfAllPushes | src/llm_harness/a2a.py:393-421 | Up to the cap, the push result is the fold of all events the agent pushed. |
| ManagedReceivers.Receivers.Enter | src/llm_harness/a2a_push.py:172-194 | An entry finds or starts the receiver of its key and counts one reference more; a failed start changes nothing. |
| ManagedReceivers.Receivers.Leave | src/llm_harness/a2a_push.py:195-200 | An exit counts one reference less, and at none removes and stops the receiver. |
| ReceiverSharing.AlwaysShared | src/llm_harness/a2a_push.py:161-200 | Over any interleaving: one running receiver per key in the map, with a positive count. |
| ReceiverSharing.RunsWhileHeld | src/llm_harness/a2a_push.py:176-200 | A receiver runs if and only if some call holds it, its count is the number of those calls, and two calls share an inbox if and only if they asked for the same key. |
| ReceiverSharing.StopsWithTheLastHolder | src/llm_harness/a2a_push.py:195-200 | A step stops a receiver if and only if its last holder leaves. |
| ReceiverSharing.AllLeftAllStopped | src/llm_harness/a2a_push.py:195-200 | When all calls have left nothing is running and the map is empty. |
| AcpMessages.FirstStop | src/llm_harness/acp.py:199-222 | The first line that ends the wait of a request: its own response, a broken line, or one that makes the loop raise. |
| AcpMessages.Choice | src/llm_harness/acp.py:251-273 | The permission answer fails closed: it selects an option the agent offered, a grant if and only if the policy allows the tool's kind and a grant is on offer, and nothing exactly if no option of the right kind is. |
| AcpMessages.AnswerIsResponse | src/llm_harness/acp.py:224-249 | Every answer carries its request's id and either a result or an error (sections 4 and 5 of JSON-RPC 2.0). |
| AcpMeaning.KindOfObject | src/llm_harness/acp.py:211-216 | An object with a method and an id is a request of the server, one with a method alone a notification, and any other a response. |
| AcpMeaning.ReplyExactlyWhen | src/llm_harness/acp.py:199-222 | A request returns the first object that is its response if that has no error, fails with the error if it has one, with the line if a line before it is no JSON, and as closed if no line ends the wait. |
| AcpMeaning.ChoiceExactlyWhen | src/llm_harness/acp.py:251-273 | The option selected is the first grant if the policy lets the tool's kind through and one is on offer, otherwise the first single refusal, and otherwise the first lasting one. |
| AcpMeaning.PermissionAnswer | src/llm_harness/acp.py:224-249 | The answer to a permission request says `selected` with that option, or `cancelled` and no option. |
| AcpMeaning.UnknownMethodAnswer | src/llm_harness/acp.py:240-249 | Any other request is refused with code -32601 and the name of its method. |
| AcpMeaning.OwnMessageFields | src/llm_harness/acp.py:49-70 | The client's requests carry version, id and method, its notifications no id, and both parameters exactly if some are given. |
| AcpClient.JsonRpcStdioClient.Request | src/llm_harness/acp.py:49-60 | A request reads the shortest stretch ending in its response, keeps that stretch's notifications, and answers its requests. |
| AcpClient.JsonRpcStdioClient.ReadResponse | src/llm_harness/acp.py:199-222 | The loop does so line by line, with the error cases. |
| AcpClient.JsonRpcStdioClient.AgentText | src/llm_harness/acp.py:177-191 | The session's chunks in order, or the exception for a kept message that is no object. |
| AcpSessions.StreamIsDemultiplexed | src/llm_harness/acp.py:199-249 | Over any sequence of requests: what has been read is a prefix of the stream, the notifications kept are exactly that prefix's, in order, and the answers sent are exactly those to its server requests. |
| AcpSessions.IdsNeverRepeat | src/llm_harness/acp.py:49-60 | The ids of the client's requests are consecutive. |
| AcpSessions.ResponsesAreNotMistaken | src/llm_harness/acp.py:216-222 | The message one request returns would not have satisfied any other request of the run, so a late response never satisfies a later call. |
| AcpSessions.TextIsThatOfTheStream | src/llm_harness/acp.py:177-191 | The text of a session is the ordered concatenation of its chunks in the part of the stream read so far, whichever requests they came during. |
| AcpSessions.TextGrows | src/llm_harness/acp.py:177-191 | Further requests only add to the text. |
| Rounding.RoundHalfEven | src/llm_harness/metrics.py:184 | Rounding is to the nearest integer, to the even one of two. |
| UsageSink.Visit | src/llm_harness/metrics.py:344-378 | The recursive visit fills the found values as the specification does, at every depth. |
| UsageMaxima.ExtractedMeaning | src/llm_harness/metrics.py:341-384 | What one payload reports: for each field the largest number under any of its names at any depth; an amount, which is a number, if and only if there is a currency; nothing that is None. |
| UsageSink.Merge | src/llm_harness/metrics.py:286-306 | Each key is merged by its own rule, whatever the order of the keys. |
| UsageSink.AdapterMetricsSink.Observe | src/llm_harness/metrics.py:219-284 | One call merges, and records at a terminal payload; a record that raises, its event written or not, is tried again at the next one. |
| RecordedEvent.TerminalExactlyWhen | src/llm_harness/metrics.py:387-399 | Which payloads end a call, by their fields. |
| RecordedEvent.FailedExactlyWhen | src/llm_harness/metrics.py:402-408 | Which payloads tell that the call failed, by their fields. |
| RecordedEvent.SignalledIsSuccess | src/llm_harness/metrics.py:402-408 | A final payload with just a return code is recorded as a failure if and only if the code is positive: a negative one, as after a signal, is a success. |
| RecordedEvent.EventTells | src/llm_harness/metrics.py:230-281 | The event names the configured role, agent, driver, task and run, the reported provider and model or the configured ones, the reported duration or else the time taken, and a failure if and only if the payload tells one. |
| RecordedEvent.CostIs | src/llm_harness/metrics.py:236-253 | The cost is the reported one with its currency, or that of the known tokens at the price that applies, to eight decimals; there is none exactly if neither is known. |
| RecordedEvent.CalculatedExactlyWhen | src/llm_harness/metrics.py:411-435 | A cost is calculated if and only if tokens are known and the provider has a price for the model, its own before one for any model. |
| UsageTexts.CostIsReported | src/llm_harness/metrics.py:374-383 | A payload with a cost object reports its amount, in its currency in upper case or in US dollars. |
| UsageTexts.TotalIsReported | src/llm_harness/metrics.py:351-383 | A payload with just a total cost reports it in US dollars. |
| UsageTexts.LargestAmountLastCurrency | src/llm_harness/metrics.py:286-306 | The amount of a call is the largest that its payloads report, and its currency the one reported last. |
| UsageTexts.TwoCosts | src/llm_harness/metrics.py:286-306 | Of two costs the second is recorded if it is no smaller; otherwise the first amount is, in the currency of the second. |
| UsageTexts.LastReported | src/llm_harness/metrics.py:286-306 | Provider and model are those reported last, at any depth, before the event is recorded. |
| UsageTexts.InvocationIsChosen | src/llm_harness/metrics.py:297-304 | The id of the invocation is the first reported one that is not all digits, and otherwise the first. |
| UsageMaxima.KeptIsMaximum | src/llm_harness/metrics.py:286-297 | What is kept of several values is a largest number among them, or nothing if there is none. |
| UsageMaxima.VisitKeeps | src/llm_harness/metrics.py:344-378 | Visiting a payload keeps for each field the largest value under any of its names at any depth. |
| UsageMaxima.KeepInParts | src/llm_harness/metrics.py:286-297 | Merging payload by payload equals taking the maximum of everything. |
| UsageMaxima.LedgerCountsWrites | src/llm_harness/metrics.py:228-284 | Over any sequence of calls the ledger gets one event for each terminal payload whose record writes, until a record returns. |
| UsageMaxima.ReturnedRecordIsLast | src/llm_harness/metrics.py:258-284 | After a record has returned nothing more is recorded. |
| UsageMaxima.OneEventExactlyWhen | src/llm_harness/metrics.py:228-284 | At most one event is recorded if and only if no record that wrote and raised is followed by another that writes, before one returns. |
| UsageMaxima.InvocationRecordedTwice | src/llm_harness/metrics.py:258-284 | Two terminal payloads that record two events for one invocation. |
| UsageMaxima.UsageIsMaximum | src/llm_harness/metrics.py:228-306 | The usage merged so far holds for each field the maximum over all inbound payloads. |
| UsageMaxima.RecordedFieldsAreMaxima | src/llm_harness/metrics.py:228-284 | The token and context fields of each recorded event are those maxima up to its terminal payload. |
| UsageMaxima.MaximumIgnoresOrder | src/llm_harness/metrics.py:286-297 | The maxima depend neither on the order nor on repetition of the payloads. |
| UsageMaxima.IntegerIgnoresOrderExactlyWhen | src/llm_harness/metrics.py:438-455 | The recorded integer is the same in every order of the values if and only if all the largest of them are the same integer. |
| UsageMaxima.PayloadOrderIgnoredExactlyWhen | src/llm_harness/metrics.py:286-297 | The integer recorded of several payloads is the same in every order of the payloads if and only if all the largest of the values they contribute, one each, are the same integer. |
| UsageMaxima.TextTieIsNotRecorded | src/llm_harness/metrics.py:438-455 | 12 and the text "12.0" are recorded as 12 in one order and as nothing in the other. |
| UsageMaxima.WholePartInEveryOrderExactlyWhen | src/llm_harness/metrics.py:438-455 | In every order the recorded integer is the whole part of the maximum if and only if each text among the largest values reads as that integer. |
| UsageSummary.AddEvent | src/llm_harness/metrics.py:174-187 | An event adds its share to every field of its group. |
| UsageSummary.SortRows | src/llm_harness/metrics.py:197 | The rows are sorted stably by role, agent, model and driver. |
| UsageSummary.Summarize | src/llm_harness/metrics.py:149-198 | One row for each key that occurs, with the sums over the events of that key, in that order; rows that differ only in the provider are in the order in which their keys first appear in the ledger. |
| SummaryMeaning.RowSays | src/llm_harness/metrics.py:150-187 | The numbers of a row, as sums over the events with its role, agent, provider, model and driver. |
| SummaryMeaning.ScoreIsMean | src/llm_harness/metrics.py:188-194 | The score of a row is the mean of the scores in its events to four decimals, and there is none if and only if there are no scores. |
| SummaryMeaning.RowsStandInOrder | src/llm_harness/metrics.py:197 | Rows in order are those in the order of role, agent, model and driver, each compared character by character. |
| UsageConservation.RowsPartitionEvents | src/llm_harness/metrics.py:150-172 | The groups partition the events. |
| UsageConservation.NothingIsLost | src/llm_harness/metrics.py:174-187 | Summed over the rows, each count, the durations and the tokens are those of all events. |
| UsageConservation.SumsIgnoreOrder | src/llm_harness/metrics.py:174-187 | The sums of a group do not depend on the order of the ledger. |
| UsageConservation.SummaryIgnoresOrder | src/llm_harness/metrics.py:149-198 | Two ledgers with the same events have the same rows up to order and costs. |
| UsageConservation.CostErrorIsBounded | src/llm_harness/metrics.py:182-184 | In exact arithmetic the cost of a group with n costed events is within n * 5e-9 of the true sum, and a currency is listed if and only if some event costs in it. |
| UsageConservation.EightPlacesAreExact | src/llm_harness/metrics.py:182-184 | Amounts of at most eight decimals are summed exactly. |
| UsageConservation.CostIgnoresOrderExactlyWhen | src/llm_harness/metrics.py:182-184 | A cost is the same in every order of the ledger if and only if no amount is half way between two units of the eighth decimal, or every other amount rounds to an even number of units. |
| UsageConservation.CostsDependOnOrder | src/llm_harness/metrics.py:182-184 | Two amounts whose rounded sum depends on their order. |

## Left out

- Dead code: function and class bodies, `with`, async and plain `for`, `match`, and what `yield` does to scoping; the unused-private-declaration findings of the same function.
- The JavaScript and TypeScript analysers, and how entry points are inferred from file names and package manifests; inferred roots are a predicate here.
- Paths: reading and parsing files, normalising paths before scopes are compared, duplicate or re-enqueued task ids in the store, and the store's own file format.
- The run loop's printing, notifications, critic calls and git operations: their results are inputs. Which commits the ledger finds is an input too; that before a task's turn it holds no operation of the task is assumed where a theorem says so.
- TaskStore.Store.Settle: a store or ledger write that fails part way, and a `record_result` that was interrupted and is repeated on the same evidence, are not modelled.
- TaskStore.Store.CompleteRollback: likewise a rollback mark that is repeated on the same evidence, which the store accepts.
- One repository with one state root: operations that the ledger finds for other state roots, and changes that other processes make to the store during a run.
- Recursion limits of the interpreter in the plan check and the JSON visits.
- `status()` of the lease and its `stale_owner`, which read the owner file without the lock; `recover()`, which is an acquire and a release; unreadable owner files; the Windows form of the kernel lock; a thread killed without its process.
- Power cuts act on the log only: the owner file of the lease is taken to keep its content.
- Interrupts of an acquire that already has the kernel lock, or inside a release (`coordination.py:178-192`), which skip the unlock: the interpreter closes the file, and so gives up the kernel lock, at some later moment.
- LeaseTiming.PollForLock: nothing is said about when an unlucky process gets the lock, since the kernel may favour others for ever.
- HTTP, authentication, agent cards and the request envelopes of A2A; identifiers made with `uuid4`.
- PushInbox.Wait: what the list is at each look is an input; how often the waiting thread is woken is not modelled.
- The HTTP server inside a receiver: starting it succeeds or fails, and stopping it succeeds.
- ACP session set-up, option selection and configuration updates; encoding of outgoing messages; failures while writing.
- UsageSink.AdapterMetricsSink.Observe: a `forward` callback that raises (`metrics.py:217-218`); its payload is not observed at all, and so is no call of the sink here.
- Numbers that are not finite, and floating-point error: arithmetic is exact.
- UsageMaxima.ExtractedMeaning: the cost within one payload is modelled but not a maximum, since a nested `cost` object replaces it.
- `record_quality` and `record_model_evidence`, which build one event and append it.
