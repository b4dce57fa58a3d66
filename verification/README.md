# Verification of the qrush daemon and its terminal panes

A Dafny model of the parts of qrush where concurrency, in-place updates and arithmetic meet: the job
queue with its scheduler, the snapshot file, the terminal fan-out, the split layout and the quoting of
command lines. `dafny verify dfyconfig.toml` checks all of it.

## How the model is built

**Queue.** `JobQueues.JobQueue` holds a list of job objects and an id index over the same objects and
updates them in place, with the loops of the program. Each method is one critical section of the queue's
lock. Each is proved equal to a function of the same name on the queue's value (`QueueModel`), and the
properties are proved of those functions: `QueueInvariant` (representation), `Waiters` (result channels),
`QueueOrder` (list surgery), `SessionTables`, `SkipRounds`.

**Scheduler.** `SystemModel` is a labelled transition system. A label is one critical section of the
scheduler goroutine, of an executor goroutine or of a client request. The scheduler reads the slot limit,
the busy slots and the next job, and starts the job, in four separate steps with its readings kept in the
program counter. Submissions, removals, reorderings, renames, slot changes, completions and retries happen
in between. A picked job may even be removed before it starts; its executor still runs, so slot accounting
is stated over jobs in the running state. A handler that changed the queue owes a poke, which it delivers in
a later step; the trigger is one bit. `Schedulers.Scheduler` performs the same steps on the queue object,
and its `TrySchedule` is the pass in which nothing comes between them (`Passes`). Results about runs
(`SlotSafety`, `Attempts`, `Outcomes`, `Submissions`, `Liveness`, `Wakeups`, `Overtaking`) hold for every
run from a freshly loaded daemon, and `Persistence.RestartIsInit` shows that every restart is such a start.
`Submissions` and `Outcomes` tie what the queue holds to what was asked for and what processes reported: the
functions of `QueueModel` are not taken on trust. `Liveness` and `Wakeups` ask nothing of the clients,
`Fairness` only that nobody reorders the list. Left alone, the daemon always comes to rest, and what keeps a
job from ending is named exactly: a circle of jobs that wait for each other, or a lost wake-up. Clients that
close no circle - depending only on ids already handed out is enough - meet neither (`DisciplinedSleep`,
`DisciplinedDrains`). `Witnesses` holds concrete runs.

**Panes.** `ByteRings` is the fixed buffer, `TerminalPanes` the fan-out of one pane to its subscribers,
`TerminalRegistry` the registry with its `TerminalKeys` and `TerminalNames`, `TerminalProcesses` the calls
and readers around it. Their methods are the critical sections of the pane's and the registry's locks; what
`Valid` states survives every order in which they are called. The program's one pane object appears twice,
once under each lock: `TerminalPanes.TerminalPTY` has its output and subscribers, `TerminalRegistry.Pty`
its child process. The two `done` flags are the same one, and the first `TerminalPTY.Finish` is the
reader's end that `Pty.reaps` counts.

**Layout.** `Layouts` has the tiling arithmetic, `LayoutEdits` the edits and the serial form on trees as
values, `PaneTrees` the same edits on linked nodes in place.

**Commands.** `Commands` has the quoting loop and the quote-state scanner, `CommandGrammar` says what a
command line means without a scanner.

## Where the code and its documentation disagree

- `README.md:333` of the repository introduces `-W` with "Only run if dependency succeeded (exit code 0)",
  and `README.md:131` says "Depend on specific job(s) succeeding". The code promises less, because it checks
  for jobs to skip once per pass, before it reads anything else, and looks only at exit codes.
  `RequiredSuccess.PickMeansSuccess` gives the exact condition over all runs: the known dependencies of a
  picked job have all succeeded iff since the skip check of that pass none of them was skipped or failed,
  none had failed with exit code 0 before it, and the job was already queued at the check or none of them
  was a reason to skip it then. Each part is needed: `ChainStartsSpoiledJob` (a dependency skipped in the
  pass), `LateFailure` (one that fails after the check), `HiddenTimeout` (one that timed out with exit code
  0), `LateSubmission` (a job submitted after the check). For a pass that nothing interrupts this comes down
  to `PickedAfterSuccess`. Success here is the opposite of the scheduler's own `jobFailed`
  (scheduler.go:99-101), which also counts time-outs and signals as failures; `HiddenTimeout` disagrees with
  that and with line 131, not with line 333. Read success as exit code 0, as line 333 does, and the part
  about failures with exit code 0 falls away; the rest remains.
- A dependency that has left the list counts as met, however it ended, and is no reason to skip.
  `ClearingHidesFailures` says so for every queue and `ForgottenFailure` is a run; `ForgottenForGood` says
  that such a dependency never returns and that only the history can tell how it ended.
- Two jobs that depend on each other, the first one naming an id not yet handed out, never start:
  `DeadlockOfTwo`. A client can free one of them by removing the other.
- But removing a queued job wakes nobody (`handleRemoveJob`, handlers_job.go:76-85, does not poke). If the
  scheduler sleeps, a job that waited for the removed one alone is ready and does not start until something
  else - a submission, an urgent job, a slot change - pokes the scheduler: `RemovalGoesUnheard`.
  `LostWakeup` says that with nothing running this is the only way to lose a wake-up, and `Progress` that
  circles and lost wake-ups are the only deadlocks. While jobs run, swapping two jobs (handlers_job.go:170-182)
  loses one as well; `OversleepExactly` says exactly when a job that would fit is left waiting.
- An empty argument does not survive quoting and splitting. `RoundTrip` says that this is the only loss.
- A pane's registry key joins two names with a NUL. Panes of different names share a key exactly when the
  names overlap at a NUL (`KeysCollideExactly`); session names without NUL never do (`KeysTellPanesApart`)
  and every other one does (`NulCollides`).

## Model

| member | source | states |
|---|---|---|
| QueueInvariant.ApplyKeepsRepInv | internal/server/jobs.go:100-413 | every queue and session mutator keeps: the index is exactly the listed ids, ids distinct and below the next id, needs at least 1, attempts within retries, every session and group known, both defaults present |
| Waiters.ApplyKeepsWaiters | internal/server/jobs.go:154-294 | after every mutator each channel ever issued is in exactly one place: answered once, attached to one active job, or dropped by a removal; an ended job holds none |
| Waiters.ResetKeeps | internal/server/jobs.go:544-556 | reset keeps the representation and turns every attached channel into a dropped one |
| QueueOrder.RemoveClosesGap | internal/server/jobs.go:163-170 | removal takes one id out and moves nothing else |
| QueueOrder.MakeUrgentShifts | internal/server/jobs.go:354-392 | the urgent job lands on the first queued place, only the stretch in between moves, by one |
| QueueOrder.MakeUrgentIsNext | internal/server/jobs.go:354-392 | a ready job made urgent is the one picked next, or nothing is picked if it does not fit |
| QueueOrder.SwapExchanges | internal/server/jobs.go:394-413 | two ids change places, all others stay |
| QueueOrder.SwapUndoesSwap | internal/server/jobs.go:394-413 | the same swap twice restores the order |
| QueueOrder.PruneKeepsLatest | internal/server/jobs.go:318-352 | exactly the last maxKeep ended jobs remain, in order, and every active job in order |
| SessionTables.RenameSessionBack | internal/server/sessions.go:108-130 | renaming there and back restores both tables and every job |
| SessionTables.RenameSessionMovesAll | internal/server/sessions.go:108-130 | all jobs of the session move, no other session gains or loses one, the group stays |
| SessionTables.RenameGroupBack | internal/server/sessions.go:183-199 | renaming there and back restores the group of every session; a nameless group cannot be restored |
| SessionTables.DeleteUndoesCreateSession | internal/server/sessions.go:89-169 | deleting a fresh session removes nothing but it |
| SessionTables.DeleteUndoesCreateGroup | internal/server/sessions.go:171-219 | deleting a fresh group removes nothing but it |
| SessionTables.DeleteSessionEndsNothing | internal/server/sessions.go:132-169 | deletion removes exactly the session and its jobs, all of them already ended |
| SessionTables.RenameGroupMovesAll | internal/server/sessions.go:183-199 | exactly the sessions of the renamed group change their group, to the new name |
| SessionTables.MoveSessionThereAndBack | internal/server/sessions.go:221-234 | the session is in the group asked for, no other session moves, and it can be moved back |
| SessionTables.CreatedEmpty | internal/server/sessions.go:89-181 | a new session stands in the default group without jobs, a new group is empty |
| SessionTables.RefusedOrDone | internal/server/sessions.go:89-234 | each table operation changes nothing under its refusal conditions and takes effect otherwise |
| SessionTables.ClearSessionKeepsOthers | internal/server/sessions.go:67-87 | clearing a session forgets exactly its ended jobs; other sessions keep theirs and the order stays |
| SessionTables.ClearingAddsUp | internal/server/sessions.go:67-87 | clearing every session in turn, in any order, forgets what clearing all ended jobs does |
| SessionTables.ResetIsNew | internal/server/jobs.go:544-556 | after a reset nothing is listed, ids start over, only the defaults remain |
| JobQueues.JobQueue.constructor | internal/server/jobs.go:54-60 | an empty queue with the default session and group |
| JobQueues.JobQueue.Add | internal/server/jobs.go:100-152 | the new object is last in the list and indexed; clamped need, defaulted session, counters moved on |
| JobQueues.JobQueue.Remove | internal/server/jobs.go:154-175 | refuses unknown and running jobs, otherwise drops the job from list and index and its channels with it |
| JobQueues.JobQueue.SetRunning | internal/server/jobs.go:214-227 | updates that job's object alone; an unknown id changes nothing |
| JobQueues.JobQueue.SetLabel | internal/server/jobs.go:229-240 | changes that job's label alone, false for an unknown id |
| JobQueues.JobQueue.SetTimeout | internal/server/jobs.go:579-590 | changes that job's time-out alone, false for an unknown id |
| JobQueues.JobQueue.MarkFinished | internal/server/jobs.go:252-272 | ends the job and sends its result once on each attached channel, in order, leaving none attached |
| JobQueues.JobQueue.MarkSkipped | internal/server/jobs.go:274-294 | the same with state skipped and the skip result |
| JobQueues.JobQueue.RequeueForRetry | internal/server/jobs.go:561-574 | succeeds iff a retry is left; uses it up, queues the job again, keeps its channels |
| JobQueues.JobQueue.WaitFor | internal/server/jobs.go:415-433 | a new channel, answered at once for an unknown or ended job, attached otherwise |
| JobQueues.JobQueue.ClearFinished | internal/server/jobs.go:296-316 | forgets exactly the ended jobs and returns how many there were; marks the queue changed iff there was one |
| JobQueues.JobQueue.PruneFinished | internal/server/jobs.go:318-352 | forgets exactly the earliest surplus ended jobs |
| JobQueues.JobQueue.Reset | internal/server/jobs.go:544-556 | the new-queue state with the counters back at 0 |
| JobQueues.JobQueue.MarkDirty | internal/server/persistence.go:58-62 | raises the flag and changes nothing else |
| JobQueues.JobQueue.MakeUrgent | internal/server/jobs.go:354-392 | the cut-and-splice refines the shift to the first queued place; true iff the job is listed and queued |
| JobQueues.JobQueue.Swap | internal/server/jobs.go:394-413 | exchanges two list places; false iff an id is missing |
| JobQueues.JobQueue.ClearFinishedInSession | internal/server/sessions.go:67-87 | forgets exactly the session's ended jobs and returns how many there were |
| JobQueues.JobQueue.CreateSession | internal/server/sessions.go:89-99 | refuses a known name, otherwise adds it to the default group |
| JobQueues.JobQueue.RenameSession | internal/server/sessions.go:108-130 | refuses the default, unknown and taken names; the loop moves every job of the session |
| JobQueues.JobQueue.DeleteSession | internal/server/sessions.go:132-169 | refuses the default, unknown sessions and sessions with queued or running jobs, each with its reason, in that order |
| JobQueues.JobQueue.CreateGroup | internal/server/sessions.go:171-181 | refuses the empty and taken names |
| JobQueues.JobQueue.RenameGroup | internal/server/sessions.go:183-199 | refuses the default, empty, unknown and taken names; the loop moves every session of the group |
| JobQueues.JobQueue.DeleteGroup | internal/server/sessions.go:201-219 | refuses the default, unknown and non-empty groups, each with its reason, in that order |
| JobQueues.JobQueue.MoveSession | internal/server/sessions.go:221-234 | moves a known session, the default included, to a known group |
| JobQueues.JobQueue.DependenciesMet | internal/server/jobs.go:502-513 | true iff every known dependency has ended |
| JobQueues.JobQueue.ShouldSkip | internal/server/jobs.go:483-500 | true iff the job requires success and some known dependency was skipped or ended with a non-zero code |
| JobQueues.JobQueue.CheckSkippable | internal/server/jobs.go:467-481 | the queued jobs to skip, in list order |
| JobQueues.JobQueue.NextRunnable | internal/server/jobs.go:437-465 | the first ready job if its clamped need fits, otherwise none: no younger job passes it |
| JobQueues.JobQueue.BusySlots | internal/server/jobs.go:528-539 | the loop's sum along the list is the sum over the index of the running jobs' unclamped needs |
| Schedulers.Scheduler.DoCheckSkip | internal/server/scheduler.go:53-54 | the pass fixes the list of jobs to skip once |
| Schedulers.Scheduler.DoSkipNext | internal/server/scheduler.go:54-56 | one job of that list is skipped per step |
| Schedulers.Scheduler.DoReadBusy | internal/server/scheduler.go:63 | the busy slots are read and kept |
| Schedulers.Scheduler.DoPickNext | internal/server/scheduler.go:65-68 | the next job by the kept readings, or the end of the pass |
| Schedulers.Scheduler.DoStartPicked | internal/server/scheduler.go:70 | the picked id is set running, which does nothing if the job is gone |
| Schedulers.Scheduler.TrySchedule | internal/server/scheduler.go:53-80 | the whole pass, uninterrupted: one skip round, then starts until none is possible; it always ends |
| Schedulers.Scheduler.SkipRound | internal/server/scheduler.go:54-56 | the loop skips exactly the jobs of one round |
| Schedulers.Scheduler.StartOne | internal/server/scheduler.go:58-79 | one turn starts the next runnable job by fresh readings, or ends the pass |
| Passes.PickExactly | internal/server/jobs.go:437-465 | what is picked is the first ready job if its need, cut down to the machine, fits; otherwise nothing: neither older jobs that wait for others nor busy slots beside which it fits hold it back |
| Passes.PassIsMaximal | internal/server/scheduler.go:58-79 | after a pass nothing is ready, or the first job still ready does not fit beside what then runs |
| Passes.PassIsGreedy | internal/server/scheduler.go:58-79 | a pass starts exactly as many of the ready jobs, in list order, as fit one after the other beside what already runs |
| Passes.PassStartsAPrefix | internal/server/jobs.go:437-465 | strict order: a pass passes no ready job over |
| Schedulers.Scheduler.DoExecStart | internal/server/executor.go:169-172 | the attempt records its process |
| Schedulers.Scheduler.DoExecRetry | internal/server/scheduler.go:82-91 | a failed attempt goes back to the queue while a retry is left, otherwise on to its final report |
| Schedulers.Scheduler.DoExecFinish | internal/server/scheduler.go:92-96 | the final attempt resolves the job |
| Schedulers.Scheduler.Submit | internal/server/handlers_job.go:17-32 | a submission enqueues the job and owes a poke |
| SystemInvariant.InitInv | internal/server/scheduler.go:41-43 | a loaded daemon satisfies the run invariant |
| SystemSteps.StepInv | internal/server/scheduler.go:53-97 | every step of scheduler, executors and clients keeps it: one executor per running job, none for queued or ended ones, the busy reading never below the truth, attempts counted |
| SystemSteps.RunInv | internal/server/scheduler.go:41-97 | so every state of every run satisfies it |
| SlotSafety.StartFits | internal/server/scheduler.go:58-79 | when a job starts, the clamped needs of all running jobs fit the limit read in that iteration; a job larger than the limit runs alone |
| SlotSafety.RunWithin | internal/server/scheduler.go:58-79 | while nobody changes the limit, running needs stay within it or a single job has the machine |
| Submissions.JobIsAsRequested | internal/server/jobs.go:100-152 | over every run a listed job has the command, arguments, dependencies, required success, retries and slots, at least one, of the request that submitted it, or those it was loaded with |
| Submissions.SubmissionIsKept | internal/server/jobs.go:100-152 | a submission lists its job at once, and every later state that lists it lists it as requested |
| Submissions.DetailsFollow | internal/server/jobs.go:214-240 | label, time-out, session, output file and process id are those requested until a request or an attempt changes them, and then those given last |
| Submissions.MaxWasRead | internal/server/scheduler.go:26-61 | the limit an iteration works by is the one that was set last when the iteration began |
| Submissions.StartFitsAsAsked | internal/server/scheduler.go:58-79 | over every run, when a job starts, the slots asked for by all running jobs, cut down to the machine, fit that limit; a job that asked for more runs alone |
| Attempts.StartsBounded | internal/server/jobs.go:561-574 | over every run a listed job starts at most retries + 1 times and its attempt number stays within its retries |
| Attempts.StartsAllowed | internal/server/scheduler.go:65-78 | the bound holds for removed jobs too |
| Outcomes.RetryPolicy | internal/server/scheduler.go:82-97 | over every run an attempt is repeated exactly when it failed, by code, signal or time-out, and a retry is left; the end of a listed job is reported only after a success or with no retry left, and recorded as reported |
| Outcomes.StartsExactly | internal/server/jobs.go:561-574 | the starts of a listed job are exactly the attempts its record shows beyond those it was loaded with |
| Outcomes.FailedMeansSpent | internal/server/scheduler.go:82-97 | a job submitted in the run and listed as failed has started exactly retries + 1 times |
| Outcomes.RecordedIsReported | internal/server/jobs.go:252-272 | the recorded result is what the process of the last attempt ended with |
| Attempts.OneLiveAttempt | internal/server/scheduler.go:70-97 | no job has two live executors, and none while queued or ended |
| Attempts.RunAbsorbs | internal/server/jobs.go:252-294 | finished and skipped are absorbing and the recorded result never changes |
| Attempts.AnswerIsFinal | internal/server/jobs.go:252-294 | what a channel received is the one result with which the job is listed as ended in any state, earlier or later, even once it has left the list; never that of a retried attempt |
| Outcomes.UnknownIsMinusOne | internal/server/jobs.go:415-424 | whoever waits for a job that does not exist is told -1 |
| Liveness.NextExists | internal/server/jobs.go:437-465 | with nothing running, something queued and no circle of waiting jobs, a job is picked whatever the limit |
| Liveness.StepKeepsAcyclic | internal/server/jobs.go:502-513 | only a submission can close a circle of jobs that wait for each other |
| Liveness.EarlierIsDisciplined | internal/server/jobs.go:502-513 | a submission that depends only on ids already handed out closes none |
| Witnesses.DeadlockOfTwo | internal/server/jobs.go:502-513 | two submissions that name each other reach a state in which the daemon can take no step and both are queued |
| Witnesses.RemovalGoesUnheard | internal/server/handlers_job.go:76-85 | from there, removing one of the two leaves the other ready with no step of the daemon's own possible |
| Liveness.StepSleeper | internal/server/handlers_job.go:76-85 | every step: afterwards a given ready job is left to a sleeping scheduler iff the step removed the last queued job it waited for while the scheduler slept, or it was so left before and the step wakes nobody and leaves it queued |
| Liveness.StepAlert | internal/server/scheduler.go:41-112 | if no ready job is left to a sleeping scheduler, a step leaves one iff it is such a removal |
| Liveness.LostWakeup | internal/server/scheduler.go:41-112 | over every run: a ready job is left to a sleeping scheduler iff earlier, asleep, it was freed by such a removal and has been queued and unpoked since |
| Liveness.NoLostWakeup | internal/server/scheduler.go:41-112 | over every run without such a removal: a scheduler asleep with no poke under way and nothing running has nothing ready, exactly the jobs caught by a circle have not ended, and nothing is queued iff there is no circle |
| Liveness.OnlyTrappedExactly | internal/server/jobs.go:437-513 | with nothing running, no job is ready iff the unfinished jobs are exactly those in or behind a circle of waiting jobs |
| Liveness.DisciplinedSleep | internal/server/scheduler.go:41-112 | if no submission closes a circle, a sleeping scheduler with nothing running has nothing queued, whatever is removed |
| Liveness.RestExactly | internal/server/scheduler.go:41-97 | at rest, every job has ended iff there is no circle and no lost wake-up |
| Liveness.Progress | internal/server/scheduler.go:41-97 | deadlock, exactly: in a reachable state the daemon has no step of its own and some job has not ended iff it is at rest with a circle of waiting jobs or with a lost wake-up in its history |
| Liveness.InternalLowers | internal/server/scheduler.go:53-97 | each such step lowers a well-founded measure |
| Liveness.ComesToRest | internal/server/scheduler.go:41-97 | left alone from any reachable state, in any interleaving, the daemon comes to rest; unless a wake-up had been lost, with every job ended except those in or behind a remaining circle, so with every job ended iff no circle remains |
| Liveness.Drains | internal/server/scheduler.go:41-97 | left alone from any reachable state without circle and lost wake-up, in any interleaving, it comes to rest with every job ended |
| Liveness.DisciplinedDrains | internal/server/scheduler.go:41-97 | so it does after any run in which no submission closed a circle |
| Wakeups.PickIsExact | internal/server/scheduler.go:65-68 | over every run a pass ends exactly when by its readings nothing is ready or the first ready job does not fit, and otherwise goes on with that job |
| Wakeups.StepOversleep | internal/server/handlers_job.go:154-182 | every step: afterwards the scheduler sleeps with no poke under way although the first ready job fits, iff the step removed a queued job or swapped two while it slept and opened the way for a job, or it did before and the step sends no poke |
| Wakeups.OversleepExactly | internal/server/scheduler.go:41-112 | over every run, jobs running or not: such a sleep is exactly the result of such a removal or swap since which neither another one nor a poke has come |
| Wakeups.SleepsWithReason | internal/server/scheduler.go:41-112 | without them a scheduler that sleeps with no poke under way has nothing ready or no room for the first ready job |
| Overtaking.StaysReady | internal/server/jobs.go:502-513 | met dependencies on ids already handed out stay met |
| Overtaking.BoundedOvertaking | internal/server/jobs.go:437-465 | while a ready job waits unreordered, starts number at most the attempts left to the jobs ahead of it, plus one already decided on |
| Overtaking.OnlyJobsAheadOvertake | internal/server/jobs.go:437-465 | each job started meanwhile stood ahead of it in the list when the wait began, or its start had been decided on by then |
| Fairness.NeverStarved | internal/server/jobs.go:456-461 | in an endless history with requests that never stop, a ready job leaves the queue or the scheduler sleeps for ever, if nobody reorders, scheduler and pokes get on, and every attempt ends |
| SkipRounds.RoundExact | internal/server/jobs.go:467-500 | one round skips exactly the queued require-success jobs with a dependency spoiled before the round |
| SkipRounds.SaturateIsLeast | internal/server/jobs.go:467-500 | repeated rounds end at the least set closed under the skip rule |
| SkipRounds.OrderIrrelevant | internal/server/jobs.go:467-500 | that set does not depend on the list order |
| SkipRounds.LeftBehind | internal/server/scheduler.go:54-56 | a job left by the round should have been skipped iff it depends on one skipped in the round |
| SkipRounds.OneRoundSuffices | internal/server/scheduler.go:54-56 | the single round of a pass is enough iff no such job exists |
| SkipRounds.ChainStartsSpoiledJob | internal/server/scheduler.go:53-70 | a three-job chain on which the pass picks a job whose required dependency it has just skipped |
| SkipRounds.PickedAfterSuccess | internal/server/jobs.go:483-513 | in an uninterrupted pass: a picked require-success job has only successful known dependencies iff none was skipped in the pass and none had failed with exit code 0 |
| RequiredSuccess.PickMeansSuccess | internal/server/scheduler.go:53-70 | over every run: the known dependencies of a picked require-success job have all succeeded iff no step since the skip check skipped or failed one, none had failed with exit code 0 before it, and the job was queued then or had no reason to be skipped |
| RequiredSuccess.EveryPickWasChecked | internal/server/scheduler.go:53-68 | in every run each pick belongs to a pass that began with a skip check |
| RequiredSuccess.DependencyAtPick | internal/server/scheduler.go:53-70 | the same for one dependency |
| RequiredSuccess.CheckedBefore | internal/server/scheduler.go:54-56 | a job that waited at the skip check and is picked in that pass had no spoiled dependency then |
| Outcomes.SkippedForAReason | internal/server/jobs.go:467-500 | a job is skipped only if it requires success and the skip check of some pass found it waiting for a dependency skipped or ended with a non-zero code |
| RequiredSuccess.WholeStory | internal/server/jobs.go:252-294 | over every run, a listed job has ended badly iff it had at the start of the stretch or a step of the stretch skipped it or reported its failure |
| RequiredSuccess.ForgottenForGood | internal/server/jobs.go:296-352 | a job dropped from the list never returns, and had succeeded iff it had ended and nothing in the history ended it badly |
| RequiredSuccess.ClearingHidesFailures | internal/server/jobs.go:483-513 | forgetting the ended jobs changes the readiness of no job and leaves no reason to skip any |
| Witnesses.LateFailure | internal/server/scheduler.go:53-70 | a run in which the dependency fails after the skip check of the pass that picks its dependent |
| Witnesses.LateSubmission | internal/server/scheduler.go:53-70 | a run in which the dependent of a failed job arrives after the skip check and is picked |
| Witnesses.HiddenTimeout | internal/server/jobs.go:492 | a run in which the dependent of a job that timed out with exit code 0 is picked |
| Witnesses.ForgottenFailure | internal/server/jobs.go:484-491 | a run in which a failed dependency is cleared away and its dependent is picked |
| Persistence.LoadOfSave | internal/server/persistence.go:24-146 | loading a saved queue gives the normalised queue |
| Persistence.LoadExactly | internal/server/persistence.go:97-146 | for any file: nothing for another version; otherwise the jobs in their order, those cut short finished with exit code -1, all others unchanged, the last under a shared id taken up, and the counters |
| Persistence.LoadedTables | internal/server/persistence.go:114-143 | the file's tables, or the new queue's, with the defaults put back; changed iff an attempt had been cut short |
| Persistence.RestartExactly | internal/server/persistence.go:24-146 | a save and a load bring back the list, the counters and every job as it was, channels aside, but for running jobs, which have finished with exit code -1 |
| Persistence.RestartSettles | internal/server/persistence.go:136-143 | after a restart a queued job is ready iff all it waited for had ended or was running, and is due to be skipped iff it requires success of a job that was running or already a reason to skip it |
| Persistence.NormaliseIdempotent | internal/server/persistence.go:124-144 | normalising again changes only the flag that announced the first repair |
| Persistence.NormaliseKeepsRepInv | internal/server/persistence.go:114-144 | a restart meets the representation invariant with nothing running |
| Persistence.RestartIsInit | internal/server/persistence.go:97-146 | a restart at any reachable moment is a start from which all results on runs apply, and adds no circle of waiting jobs |
| Persistence.MutatorsAreHonest | internal/server/jobs.go:48-52 | a mutator that leaves the flag clear has changed nothing that is saved |
| Persistence.ForgettingShows | internal/server/jobs.go:296-352 | clearing and pruning mark the queue changed exactly if they forget a job |
| Persistence.CleanThroughout | internal/server/persistence.go:24-62 | through every mutator and every failed or interrupted save, a clear flag with no write outstanding means the file restores the current queue |
| Persistence.CrashRestoresThePast | internal/server/persistence.go:24-95 | at every moment the file restores some queue the daemon really had |
| SnapshotFiles.TakeSnapshot | internal/server/persistence.go:29-44 | clears the flag and encodes the queue as it is, only if it had changed |
| SnapshotFiles.Save | internal/server/persistence.go:24-62 | writes iff configured and changed; a failed write leaves the file alone and raises the flag |
| SnapshotFiles.EndInterrupted | internal/server/persistence.go:136-143 | the repair of one job object, and whether it was needed |
| SnapshotFiles.Repair | internal/server/persistence.go:130-144 | the loop repairs every object, fills the index over the same objects, the last of those that share an id winning, and raises the flag iff something was repaired |
| SnapshotFiles.Load | internal/server/persistence.go:97-146 | a fresh queue object with the decoded list, index, counters and tables, valid if ids are distinct; nothing for an unsupported version, an empty queue without a file |
| ByteRings.ByteRing.constructor | internal/server/terminal.go:33 | an empty ring |
| ByteRings.ByteRing.Write | internal/server/terminal.go:35-59 | through the oversized, wrapping and exact-fill branches the buffer stays the tail of everything written |
| ByteRings.ByteRing.Bytes | internal/server/terminal.go:61-69 | reads out exactly the last min(size, total) bytes |
| ByteRings.TailOf | internal/server/terminal.go:35-69 | any sequence of writes of any lengths leaves the tail of their concatenation |
| TerminalPanes.Channel.Send | internal/server/terminal.go:427 | only on an open channel with room |
| TerminalPanes.Channel.Receive | internal/server/terminal.go:562-579 | chunks in order; after the close the rest is drained first |
| TerminalPanes.TerminalPTY.constructor | internal/server/terminal.go:219-227 | a live pane without output or subscribers |
| TerminalPanes.TerminalPTY.Broadcast | internal/server/terminal.go:421-439 | the chunk reaches every subscriber with room, the others are closed and dropped without it |
| TerminalPanes.TerminalPTY.Attach | internal/server/terminal.go:481-492 | the retained tail together with a channel that starts at the current end; closed at once on a finished pane |
| TerminalPanes.TerminalPTY.Detach | internal/server/terminal.go:494-500 | the channel is no longer served |
| TerminalPanes.TerminalPTY.Finish | internal/server/terminal.go:441-457 | every open channel is closed once, the client set goes; only the first call reaps |
| TerminalPanes.TerminalPTY.Take | internal/server/terminal.go:562-579 | a receive keeps the books |
| TerminalPanes.TerminalPTY.Gapless | internal/server/terminal.go:421-492 | replay, received and queued chunks are one contiguous slice of the output, up to its end while registered |
| TerminalPanes.TerminalPTY.OpenMeansServed | internal/server/terminal.go:421-500 | a channel not given back is open iff it is registered; none is open on a finished pane |
| TerminalRegistry.TerminalManager.Lookup | internal/server/terminal.go:110-117 | the pane in service, or a cleared entry |
| TerminalRegistry.TerminalManager.Start | internal/server/terminal.go:119-122 | a new child in its creator's hands |
| TerminalRegistry.TerminalManager.Publish | internal/server/terminal.go:124-132 | gives way iff another pane is in service under the key, otherwise becomes the entry |
| TerminalRegistry.TerminalManager.Discard | internal/server/terminal.go:531-537 | the loser reaps its child, once |
| TerminalRegistry.TerminalManager.Finish | internal/server/terminal.go:441-457 | the reader's end reaps the child, once however often it is called |
| TerminalRegistry.TerminalManager.Unregister | internal/server/terminal.go:134-141 | takes away its own entry only |
| TerminalRegistry.TerminalManager.CreateRace | internal/server/terminal.go:108-143 | the schedule in which two calls both find nothing and both start a shell: they share one pane and leave no child unaccounted for |
| TerminalRegistry.TerminalManager.NextPane | internal/server/terminal.go:231-240 | a name unlike every name given out before |
| TerminalRegistry.TerminalManager.Kill | internal/server/terminal.go:158-167 | takes out and dooms the pane registered under the key |
| TerminalRegistry.TerminalManager.SetLayout | internal/server/terminal.go:262-283 | stores the layout, takes out exactly the session's panes not kept |
| TerminalRegistry.TerminalManager.DropSession | internal/server/terminal.go:308-325 | forgets the layout, takes out exactly the session's panes |
| TerminalRegistry.TerminalManager.KillAll | internal/server/terminal.go:177-188 | no pane is in service afterwards |
| TerminalRegistry.TerminalManager.ListLayout | internal/server/terminal.go:244-258 | the stored layout, and exactly the names of the session's panes in service, each once |
| TerminalRegistry.TerminalManager.PanesAreShared | internal/server/terminal.go:108-143 | two panes in service never have the same key |
| TerminalRegistry.TerminalManager.ChildrenAreAccountedFor | internal/server/terminal.go:108-188 | each child is reaped at most once, by finish or discard; before that it is with its creator, registered, or told to die |
| TerminalProcesses.PaneDaemon.Find | internal/server/terminal.go:110-117 | a call returns with the pane in service or goes on to start one |
| TerminalProcesses.PaneDaemon.Launch | internal/server/terminal.go:119-122 | a call holds its new child, or returns with an error |
| TerminalProcesses.PaneDaemon.Settle | internal/server/terminal.go:124-134 | a call leaves its published pane to a new reader, or holds a child that has lost |
| TerminalProcesses.PaneDaemon.Lose | internal/server/terminal.go:127 | the losing call reaps its child |
| TerminalProcesses.PaneDaemon.ReaderEnds | internal/server/terminal.go:407-419 | the reader finishes its pane and reaps the child |
| TerminalProcesses.PaneDaemon.ReaderLeaves | internal/server/terminal.go:134-141 | the reader gives up its own entry and is done |
| TerminalProcesses.PaneDaemon.Evict | internal/server/terminal.go:158-188 | a kill leaves every process and its child paired |
| TerminalProcesses.PaneDaemon.NoChildIsLost | internal/server/terminal.go:108-188 | for any number of calls in any order: once all have returned, each child has been reaped exactly once or has a reader waiting for it, and is then the entry of its key or told to die |
| TerminalProcesses.PaneDaemon.AllChildrenReaped | internal/server/terminal.go:441-457 | once the readers have returned too, each child has been reaped exactly once |
| TerminalNames.NamesAreNotRecycled | internal/server/terminal.go:231-235 | different numbers give different names |
| TerminalNames.NameTellsNumber | internal/server/terminal.go:231-235 | a fresh name is a p and the decimal number, never the name of a main pane |
| TerminalKeys.KeysTellPanesApart | internal/server/terminal.go:98-106 | without NUL in session names, keys are equal iff session and pane are |
| TerminalKeys.UnnamedAreDefaults | internal/server/terminal.go:98-106 | a session or pane without a name shares its key with the default session or main pane, and with no other |
| TerminalKeys.KeysCollideExactly | internal/server/terminal.go:98-106 | two panes have one key iff they are the same or one session name continues the other after a NUL and the pane of the shorter takes up the rest |
| TerminalKeys.NulCollides | internal/server/terminal.go:98-106 | every session name with a NUL has a pane that shares its key with a pane of another session |
| TerminalKeys.KeysCanCollide | internal/server/terminal.go:98-106 | one such pair of panes |
| Layouts.LayoutInto | internal/tui/layout.go:51-85 | the accumulating walk appends exactly the tiling |
| Layouts.ExactTiling | internal/tui/layout.go:44-85 | every cell of the area lies in exactly one pane or separator, no cell outside in any |
| Layouts.AreasAddUp | internal/tui/layout.go:44-85 | pane areas and separator lengths sum to width times height |
| Layouts.PanesAreVisible | internal/tui/layout.go:61-84 | in an area of at least one cell every drawn pane has at least one cell |
| Layouts.DrawnInOrder | internal/tui/layout.go:51-104 | what is drawn is a selection of the leaves in traversal order, none twice |
| Layouts.NoCollapse | internal/tui/layout.go:61-84 | all panes are drawn, in traversal order, iff the area reaches the tree's least width and height |
| Layouts.FirstPaneStays | internal/tui/layout.go:61-84 | the first pane is always drawn, whatever collapses |
| Layouts.DeepEnough | internal/tui/layout.go:61-84 | 2^(V+1)-1 columns and 2^(H+1)-1 rows always suffice |
| Layouts.BoundIsTight | internal/tui/layout.go:61-84 | on chains of side-by-side splits one column less loses a pane, on stacked chains one row less |
| Layouts.Neighbor | internal/tui/layout.go:180-234 | the drawn pane of least centre distance strictly on the requested side, first among equals; none if there is none or the focus is not drawn |
| Layouts.SplitHasTwoSides | internal/tui/layout.go:198-232 | the panes across a separator lie strictly on its two sides, as the search sees it |
| Layouts.CentreIsMiddle | internal/tui/layout.go:185-205 | the centre of a pane is its middle cell, the later one of two |
| Layouts.DistanceCountsCells | internal/tui/layout.go:198-232 | the distance is 0 exactly between equal centres, symmetric, and grows by one for each column and row a pane moves away |
| Layouts.NothingIsOutOfReach | internal/tui/layout.go:198-232 | on any screen below 2^30 cells of width plus height, only the side decides whether there is a neighbour |
| LayoutEdits.RemoveDropsOneLeaf | internal/tui/layout.go:124-151 | the leaf sequence loses its first leaf with that shell and nothing else |
| LayoutEdits.RemoveFindsTheShell | internal/tui/layout.go:124-151 | something is removed iff some leaf holds the shell, otherwise the tree is unchanged |
| LayoutEdits.SplitInsertsAfter | internal/tui/layout.go:109-119 | the new shell comes right after its target |
| LayoutEdits.SplitAddsOneSplit | internal/tui/layout.go:109-119 | splitting adds one split, in the direction asked for |
| LayoutEdits.RemoveUndoesSplit | internal/tui/layout.go:109-151 | removing the shell just split off restores the tree |
| LayoutEdits.PruneFiltersLeaves | internal/tui/layout_serial.go:82-108 | exactly the leaves of alive panes remain, in order |
| LayoutEdits.PruneIsRemovalInAnyOrder | internal/tui/layout_serial.go:82-108 | with unique ids the pruned tree is the one that removing the dead leaves one by one gives, in any order |
| LayoutEdits.SerialRoundTrip | internal/tui/layout_serial.go:17-41 | the serial form keeps every split and every pane name |
| LayoutEdits.SerialIsCanonical | internal/tui/layout_serial.go:17-41 | writing what was read gives it back iff it was as the program writes it |
| LayoutEdits.PaneNames | internal/tui/layout_serial.go:67-78 | the loop collects the non-empty names in leaf order |
| LayoutEdits.RestoreNamesTheSamePanes | internal/tui/layout_serial.go:31-78 | a restored layout names the panes that were saved, in order |
| LayoutEdits.RestoredPanesAreAlive | internal/tui/layout_serial.go:67-108 | after pruning, exactly those still alive |
| PaneTrees.Walk | internal/tui/layout.go:88-104 | the leaf nodes in traversal order |
| PaneTrees.RemoveLeaf | internal/tui/layout.go:124-151 | the in-place edit returns a sharing-free tree of the same nodes that stands for the removal; without a find nothing is written |
| PaneTrees.RemoveFromChild | internal/tui/layout.go:134-149 | one turn of the loop over the two children |
| PaneTrees.PruneDeadLeaves | internal/tui/layout_serial.go:82-108 | the in-place edit stands for the pruned tree |
| PaneTrees.SplitLeaf | internal/tui/layout.go:109-119 | nothing for an inner node; otherwise the whole tree around the target stands for the split tree |
| PaneTrees.LeavesAreTips | internal/tui/layout.go:24 | a node is a leaf of the tree iff its fields say so, so edits keep leaf nodes' identity |
| Commands.Join | internal/client/submit.go:65-75 | the quoting loop |
| Commands.Parse | internal/server/executor.go:284-322 | the scanner loop over its five state variables |
| Commands.QuoteIsVerbatim | internal/client/submit.go:68-69 | whatever an argument contains, its quoted form is scanned back literally and leaves all quotes closed |
| Commands.JoinThenParse | internal/server/executor.go:284-322 | for every list, splitting the joined line gives the list without its empty strings |
| Commands.RoundTrip | internal/client/submit.go:65-75 | the round trip is exact iff no argument is empty |
| Commands.ParseThenJoin | internal/server/executor.go:284-322 | any command line can be replaced by the joined form of its arguments |
| Commands.BareIffHarmless | internal/client/submit.go:65-73 | an argument is left unquoted exactly when no character in it means anything to a shell |
| Commands.JoinedIsInert | internal/client/submit.go:65-75 | in a joined line every character a shell would act on stands in single quotes |
| CommandGrammar.PieceIsRead | internal/server/executor.go:291-317 | a bare character, a backslash pair, a single-quoted or a double-quoted stretch adds what it means to the argument and leaves all quotes closed |
| CommandGrammar.LineIsUnderstood | internal/server/executor.go:284-322 | a line of such words is split into what they mean, empty ones left out |
| CommandGrammar.CommandIsUnderstood | internal/server/executor.go:284-322 | every string is such a line, up to an unclosed end, and is split into what it means however it is read as one |
| CommandGrammar.DoubleJoinThenParse | internal/server/executor.go:284-322 | arguments written in double quotes with double quotes and backslashes escaped are split back like those written in single quotes |

## Left out

- Runs with a reset: ids start over, so a stale executor could name a new job. The reset itself is modelled.
- Real processes, PTYs, signals, timers, output files and the finish hook: an attempt is an arbitrary result
  delivered once; whether a shell or a process starts is a parameter.
- The instant between a state change and the sends on its channels: the channels have room for their one
  value, so both are one step.
- Overlapping saves, and the temporary file behind one write: a write happens or fails as a whole.
- JSON, gob and the wire protocol: each codec is taken to be its own inverse.
- Snapshots edited by hand: null entries and groups stored as false. What a queue loaded with repeated ids
  does afterwards.
- Wall-clock times, work directory, environment, message, log file and the compression and stderr switches
  of a job: stored and passed on without being looked at by the modelled code.
- `RerunRequest`, `SetOutputFilename`, `RunningCount` and the other readers of the queue: one-branch facts.
- `ListAll`, `RenameLayout`, `findLeaf` and `nextLeaf`: the same.
- The 64-bit wrap of the pane-name counter and 32-bit integers in layout: numbers are unbounded.
- Strings that are not valid UTF-8: a string is a sequence of code points.
- Layout of an absent tree and a leaf without a node: the tree passed in exists; a leaf may lack a shell.
- Rendering, key handling, the terminal emulator, command-line flags and configuration.
- Layouts.Neighbor: names a pane by its position among the leaves instead of its node.
