# AI Runner, schedules and app deployment: a verified model

The repository runs AI agent jobs and deploys web apps on one host. This project models its hard core in Dafny and
proves what that core is for.

- **The job engine.** A supervisor process that holds a lease dispatches jobs, detached workers run them, and the web
  process enqueues and kills them. They share only database documents. `Jobs.dfy` holds the documents and every write
  to them, `Engine.dfy` the protocol: each database call is one step, every actor keeps what it read earlier, and all
  actors interleave freely. `LeaseSafety`, `Exclusion`, `Concurrency`, `Cancellation`, `Attempts` and `Agreement`
  prove properties of every run; `Overrun` and `Overlap` (with `Scenarios`) and `Starvation` exhibit runs and tables in
  which a promise fails. `Supervisor.dfy`, `Worker.dfy` and `WebProcess.dfy` are the code of the three actors as loops
  over database calls, shown to take only steps of that protocol (`Database.dfy`); `Queue.dfy` is the creation of a run
  with its job, and the step that moves the linked schedule on.
- **Cron and schedules.** `CronText` and `CronRules` say what the text of fields and expressions means, and `CronFields`,
  `Calendar`, `Search` and `NextRuns` prove the minute-by-minute search exact against a set of minutes. `Schedules.dfy` does so for the catch-up
  walk, `Yearly.dfy` follows it across years, and `ScheduleSlots.dfy` through crashes and concurrent passes.
- **Autoflows.** `Autoflow.dfy`: order, stop on failure, completion and progress of sequential and parallel flows.
- **Shell quoting.** `ShellQuoting.dfy`: quoting against a lexer for sections 2.2.2, 2.2.3 and 2.3 of POSIX.1-2017 XCU.
- **Apps.** `AutoUpdate.dfy` holds the update record of an app and the filter of its guarded update, `Projection.dfy`
  the protocol that projects finished operations onto it, and its code: outcomes are counted once through crashes.
  `Deploy.dfy`: the deployment routine and its rollback.

`dafny verify dfyconfig.toml` checks the whole project.

## Assumptions

- One shared clock that never goes back, and distinct supervisor ids.
- *Timely ticks*: a supervisor that recovers or claims a job does so before its lease of 20 s runs out. Nothing in the
  code enforces this, so workspace exclusion and the concurrency cap are stated for timely runs. Every other read and
  write may come late, and lease spacing, cancellation, attempts against dispatches, and the agreement of jobs and runs
  need no such assumption.
- The two documents of a job and its run are written in one step. Recovery, finalize and the kill write them in one
  `Promise.all`; worker start and the record of a spawn write the job first and the run after it, and enqueueing the run
  first (`Queue.dfy` models that order).
- What the operating system answers is an input: exit markers, live processes and spawns of the supervisor, the child's
  launch and the events of the worker, every step of a deployment, and the calls before which the update projection is
  stopped. So is whether a write works. Setting a key to `undefined` may or may not clear it.
- `quiet` in a method's contract means that no other actor acts during the call, while the clock runs on. Without it,
  others do anything legal.

## What does not hold

- Nothing fences a tick by the lease. `Overlap.LateTicksBreakExclusionAndCap` is a run in which a supervisor that stalled
  past its lease claims a job beside the next one: two active jobs share a workspace, and the cap of 1 is exceeded.
- The bound on attempts fails at document level even with a single punctual supervisor: `Overrun.AttemptsCanExceedMax`
  is a run with a third attempt of two. A run keeps every job within its bound, and one attempt left for every job that
  can still start, if and only if each retry it queues is affordable when written
  (`Attempts.WithinBudgetIffAffordable`). That is so whenever recovery and finalize are single actions. For the bound
  alone the condition is sufficient only: an unaffordable retry that is never started breaks nothing.
- A dispatch pass can end stuck although an unblocked job is runnable, if and only if 25 blocked runnable jobs do not
  sort after the first unblocked one (`Starvation.StuckDespiteUnblockedIff`, with the table of
  `Starvation.BlockedJobsHideAnother`).
- Blocking is stricter than exclusion needs: an active job in a worktree holds back a job of its workspace that it would
  not conflict with, and beyond that a job is blocked exactly if it would conflict (`Exclusion.BlockedIff`, with the
  table of `Exclusion.WorktreeBlocks`).
- The catch-up walk skips the second of two consecutive matching minutes. It is exact if and only if the expression
  never matches twice in a row (`CatchUp.WalkExactIffSparse`); a schedule for every minute is attempted every second
  minute (`CatchUp.EveryMinuteIsHalved`).
- A yearly schedule finds its next date if and only if no leap day comes before it (`Yearly.YearlySuccessorIff`): the
  search window is 365 days long. From a slot before a leap day the walk attempts that slot, stores no next run and
  never attempts another (`Yearly.YearlyWalkStopsIff`, `Yearly.YearlyWalkStopsForGood`).
- Without a run-as user the terminal command line leaves the shell setting unquoted. It agrees with the plain argument
  list if and only if that setting is a single plain word (`ShellQuoting.PlainTerminalFormAgreesIff`).
- A parallel flow that stops on failure ends with a run still active exactly if it has one then (`Autoflows.EndsIff`,
  with the flow of `Autoflows.ParallelStopLeavesActive`).
- A failed deployment that started from nothing or from a readable link restores it, provided removing works
  (`Deployments.FailureRestoresLink`). `Deployments.RestoredIff` decides every other start: a regular file is deleted
  although only the build failed (`Deployments.FailedBuildDeletesFile`), and an unlink that fails silently leaves the link
  to the failed release (`Deployments.FailedUnlinkLeavesRelease`). A deployment
  that issued its restart and does not become active leaves it uncompensated if and only if the signal had fired (then
  nothing may be compensated), no earlier target was read, the restart failed or its logging threw, or the compensation
  cannot put the link back or issue its own restart (`Deployments.RestartUncompensatedIff`, with a witness for the
  signal, the failing restart, the link and the second restart).
- An outcome of an app update can be lost for good. `Projections.OutcomeIsLost` is a run in which a manual update fails,
  the next operation registers itself before the pass, the filter refuses the failure, and it is marked all the same.
  An update counts its outcome if and only if the generation matches and the app still names this operation, none, or
  this slot (`Projections.CountsIff`); an outcome marked without being counted is never counted later
  (`Projections.LostForGood`).

## Model

| member | source | states |
|---|---|---|
| LeaseSafety.GrantsAreSpaced | src/lib/ai-runner/supervisor.ts:98-132 | in every run, through update and create and with delayed writes, a grant to another supervisor comes at a clock reading at least 20 s after any earlier grant |
| LeaseSafety.LiveTicksNeverOverlap | src/lib/ai-runner/supervisor.ts:72-95 | two supervisors are never inside ticks whose leases both still run |
| LeaseSafety.GrantedIff | src/lib/ai-runner/supervisor.ts:98-132 | in every reachable state a supervisor that asks for an existing lease gets it if and only if every grant another supervisor ever got lies at least 20,000 ms before its reading |
| LeaseSafety.LeaseStep | src/lib/ai-runner/supervisor.ts:98-132 | every step of every actor keeps the lease invariant (readings in the past, grants on record, ticks granted, grants spaced) |
| Exclusion.WorkspaceExclusion | src/lib/ai-runner/supervisor.ts:267-280 | in every run whose recoveries and claims fall within their leases, no two distinct dispatched or running jobs that block, use no worktree and are not cancelled share a workspace |
| Exclusion.ExclusionStep | src/lib/ai-runner/supervisor.ts:282-421 | one step keeps exclusion over the active jobs together with the unprocessed stale snapshot, even when recovery rewrites a job a worker has just finished; only a recovery or a claim has to fall within its lease |
| Exclusion.ClaimKeepsExclusion | src/lib/ai-runner/supervisor.ts:828-861 | claiming a job found unblocked creates no workspace conflict although documents changed since the check |
| Exclusion.BlockedIff | src/lib/ai-runner/supervisor.ts:267-280 | while the active jobs are free of conflicts, a job that may still run is blocked if and only if it would conflict with one of them or waits for a job in a worktree of its workspace |
| Exclusion.WorktreeBlocks | src/lib/ai-runner/supervisor.ts:267-280 | a table in which a job is blocked although it would conflict with no active job |
| Exclusion.StepEvolves | src/lib/ai-runner/worker.ts:59-72 | no step removes a job or changes its claim, and only recovery and dispatch make an inactive job active |
| Overlap.LateTicksBreakExclusionAndCap | src/lib/ai-runner/supervisor.ts:72-140 | without timely ticks exclusion and cap fail: a legal run with caps of 1 ends with two active jobs in one workspace |
| Concurrency.ActiveJobsWithinCap | src/lib/ai-runner/supervisor.ts:811-924 | with caps of at most `bound`, every reachable state of a run whose recoveries and claims fall within their leases has at most `bound` active jobs; the supervisor's own count is never below the true one, the job being spawned and recorded not counted |
| Concurrency.PassWithinCapOrFirstCount | src/lib/ai-runner/supervisor.ts:811-924 | from the first count of a pass on, the active jobs stay within the larger of that count and the cap |
| Concurrency.SpawnKeepsCap | src/lib/ai-runner/supervisor.ts:882-922 | a failed spawn gives the slot back and a recorded one keeps it |
| Cancellation.CancellationIsFinal | src/lib/ai-runner/service.ts:1379-1412 | from any state, after cancellation is requested there is no dispatch, and at most one more attempt starts, only if the job was dispatched at that moment |
| Cancellation.AttemptsNeverExceedDispatches | src/lib/ai-runner/worker.ts:59-72 | in every run attemptCount is at most the number of dispatches |
| Cancellation.StepJobs | src/lib/ai-runner/supervisor.ts:841-861 | each step changes a job in one of the permitted ways: a dispatch takes only a waiting uncancelled job, an attempt starts only from dispatched |
| Attempts.BudgetStep | src/lib/ai-runner/worker.ts:403-452 | a step keeps attemptCount <= maxAttempts, with one attempt left for startable jobs, if and only if the retry it queues is affordable at that moment |
| Attempts.WithinBudgetIffAffordable | src/lib/ai-runner/shared.ts:558-560 | a run keeps every job within maxAttempts, with one attempt left for every startable job, in all its states if and only if each retry is written to a document that still has an attempt left |
| Attempts.ActionsKeepAttemptsWithinMax | src/lib/ai-runner/supervisor.ts:312-458 | with each recovery and each finalize as one action, also a late one by an earlier worker, maxAttempts is never exceeded |
| Attempts.ReadsStep | src/lib/ai-runner/worker.ts:403-404 | earlier reads held by supervisors and workers never count more attempts than the document |
| Overrun.AttemptsCanExceedMax | src/lib/ai-runner/worker.ts:403-452 | a concrete timely run in which a stalled finalize lets a job start a third attempt of two |
| Agreement.JobsAndRunsAgree | src/lib/ai-runner/supervisor.ts:312-575 | in every reachable state job and run status correspond (queued with queued, dispatched with queued or retrying, canceled with killed, and so on) |
| Agreement.AgreementStep | src/lib/ai-runner/worker.ts:412-544 | every step of supervisor, worker and web process keeps the correspondence |
| Databases.OthersLeaveMe | src/lib/ai-runner/supervisor.ts:72-95 | whatever other actors do between two calls, an actor's own position, the existing jobs and the clock's order are kept |
| Databases.Database.Call | src/lib/ai-runner/supervisor.ts:841-865 | a database call is one step of the protocol, appended to the history |
| SupervisorCode.Supervisor.AcquireLease | src/lib/ai-runner/supervisor.ts:98-132 | a granted lease is on record with a reading taken during the call; left alone it is granted if and only if it was absent, this supervisor's own or run out at that reading; otherwise the supervisor exits |
| SupervisorCode.Supervisor.ReconcileStaleJobs | src/lib/ai-runner/supervisor.ts:282-576 | works through the whole stale snapshot under any interference; left alone it touches exactly the dispatched and running jobs whose heartbeat is present and at least 20,000 ms older than its reading, and leaves each with the status that the exit marker, liveness, cancellation, run time and attempts left decide |
| SupervisorCode.HeartbeatProtects | src/lib/ai-runner/supervisor.ts:283-287 | a heartbeat keeps its job out of every stale snapshot with a reading less than 20,000 ms after it |
| SupervisorCode.Supervisor.SelectJob | src/lib/ai-runner/supervisor.ts:828-839 | left alone, returns the first runnable job in sort order that no active, blocking, uncancelled job of its workspace holds back, or nothing exactly when every candidate is held back so |
| SupervisorCode.Supervisor.DispatchOne | src/lib/ai-runner/supervisor.ts:818-922 | left alone, one round takes the job that is first and unblocked at the round's own reading and nothing else, records its worker exactly if the host can spawn it and fails it otherwise; or it changes nothing and is stuck |
| SupervisorCode.Supervisor.DispatchRunnableJobs | src/lib/ai-runner/supervisor.ts:811-924 | left alone, with the clock running on and retries maturing, a pass takes one first unblocked job after another, launched exactly if the host can spawn its worker, and needs at most one round more than there are queued or retrying jobs; when it ends below the cap, and at most 25 jobs may run, each of these is held back by an active, blocking, uncancelled job of its own workspace |
| SupervisorCode.PassHandsOver | src/lib/ai-runner/supervisor.ts:811-924 | over a whole pass each job is handed over at most once, from queued or retrying and uncancelled to dispatched, or to failed without a worker, and every other document stays as it was |
| SupervisorCode.RoundHandsOver | src/lib/ai-runner/supervisor.ts:818-922 | the job of a round may run at its reading and is not held back, and only its document changes |
| SupervisorCode.Supervisor.Run | src/lib/ai-runner/supervisor.ts:72-140 | as long as it keeps its lease, every tick of the loop is one recovery pass and one dispatch pass, and otherwise the supervisor exits; a punctual history ends without workspace conflicts |
| SupervisorCode.FindRunnable | src/lib/ai-runner/supervisor.ts:819-826 | the sorted query: at most 25 of the waiting, uncancelled jobs whose time has come, by scheduledFor, nextAttemptAt, createdAt with absent keys first, and no such job left out that comes before one of them |
| SupervisorCode.FirstOfCandidates | src/lib/ai-runner/supervisor.ts:819-839 | the first unblocked candidate is first among all unblocked runnable jobs |
| SupervisorCode.StuckMeansAllBlocked | src/lib/ai-runner/supervisor.ts:836-839 | with at most 25 runnable jobs a stuck pass means that every runnable job is blocked |
| Starvation.StuckDespiteUnblockedIff | src/lib/ai-runner/supervisor.ts:819-839 | a pass can end stuck beside an unblocked runnable job if and only if 25 blocked runnable jobs do not sort after the first unblocked one |
| Starvation.BlockedJobsHideAnother | src/lib/ai-runner/supervisor.ts:819-839 | a table of 25 blocked jobs that hides a 26th, unblocked one |
| SupervisorCode.ClaimEffect | src/lib/ai-runner/supervisor.ts:841-922 | a round takes exactly one job out of queued or retrying and adds one active job exactly if its worker was spawned |
| WorkerCode.AIRunnerWorker.Claim | src/lib/ai-runner/worker.ts:59-72 | the compare-and-set succeeds exactly on a dispatched job and counts one attempt |
| WorkerCode.AIRunnerWorker.Beat | src/lib/ai-runner/worker.ts:304-362 | left alone, a heartbeat changes nothing but the heartbeat, and the worker is killed by the user exactly if a cancellation was requested |
| WorkerCode.AIRunnerWorker.Finish | src/lib/ai-runner/worker.ts:369-544 | finalize decides from its last read; left alone the result is one attempt, from the time of the claim to the time of the write, canceled exactly after a kill by the user and completed exactly after an unkilled success |
| WorkerCode.AIRunnerWorker.Run | src/lib/ai-runner/worker.ts:56-752 | run() takes only protocol steps; a claimed job fails to launch exactly if the child cannot be spawned, and the call finishes exactly if the child ends among the events; left alone, a finished call is one attempt that leaves the run killed and the job canceled, timed out, completed or failed as OutcomeByPosition says, an unfinished one keeps the job underway, and one that cannot claim changes nothing |
| WorkerCode.OutcomeByPosition | src/lib/ai-runner/worker.ts:304-406 | a run is killed exactly if a heartbeat before the child's end finds a cancellation and no timeout fires after it, timed out exactly if a timeout fires and no heartbeat finds a cancellation after it, and otherwise completed or failed by the exit code |
| WorkerCode.CompletedIff | src/lib/ai-runner/worker.ts:369-415 | a run is completed if and only if the child ends with code 0, no timeout fired before and no heartbeat saw a cancellation |
| WorkerCode.FinalizeIsAttempt | src/lib/ai-runner/worker.ts:403-544 | whatever the heartbeat did, the result is an attempt: canceled exactly after a kill by the user, completed exactly after an unkilled success, retried exactly if it was not one of these, attempts are left and no cancellation is requested |
| WebCode.RunService.KillRun | src/lib/ai-runner/service.ts:1357-1424 | an accepted kill leaves the cancellation requested whatever interleaves; left alone it accepts exactly queued, running, retrying and skipped runs, cancels queued and retrying jobs and flags all others |
| WebCode.RefusedIff | src/lib/ai-runner/service.ts:1357-1378 | in every reachable state the runs that a kill refuses are those whose jobs are completed, failed or canceled |
| WebCode.RunService.KillRunAndLetOthersAct | src/lib/ai-runner/service.ts:1357-1412 | from the state right after the kill's own write, whatever others do, the job is not dispatched again and at most one owed attempt starts |
| RunQueues.RunQueue.EnqueueResolvedRun | src/lib/ai-runner/queue.ts:112-400 | a manual run of a blocked workspace is refused before anything is written, unless its profile is locked; otherwise the documents are those of Create, and the linked schedule records the run and moves on to the successor of its slot |
| RunQueues.RunQueue.Create | src/lib/ai-runner/queue.ts:259-379 | a run is queued, with one job linked both ways, if and only if the profile is not locked, the slot is free and every write works; a locked profile leaves a skipped run; an error leaves at most one unlinked run; a taken slot never gets a second job |
| RunQueues.SlotOfNewEntry | src/lib/ai-runner/queue.ts:259-260 | a job has the slot asked for; without one a schedule's job takes the time of the request and other jobs none |
| RunQueues.MovesOnToNextMatch | src/lib/ai-runner/queue.ts:112-132 | the schedule names the run and its time, and a next time it gets is the first minute with a match that lies more than a minute after the slot |
| RunQueues.JobAdded | src/models/AIRunnerJob.ts:127 | a job the unique index admits keeps runs and jobs linked and slots unique |
| Jobs.RecoveryDecides | src/lib/ai-runner/supervisor.ts:312-542 | completed, canceled, running, retrying and timeout are decided by a recovery exactly under their conditions; a timeout it finds is never retried |
| Jobs.MaxAttemptsFor | src/lib/ai-runner/queue.ts:239-242 | maxAttempts lies between 1 and 10 for every retry setting |
| Jobs.RetriesAddAttempts | src/lib/ai-runner/queue.ts:239-242 | each of up to nine retries adds one attempt to the first, numbers outside change nothing more, and no setting means one retry |
| CronFields.MatchesCronField | src/lib/crons/service.ts:142-196 | true exactly for the members of the union of the field's stepped ranges, with aliases and 7 as Sunday |
| CronFields.ScanRange | src/lib/crons/service.ts:187-191 | the candidate loop finds a value exactly if the range contains it |
| CronText.RangeWithStep | src/lib/crons/service.ts:155-180 | for all numbers the text "a-b/s" denotes every s-th value from a to b |
| CronText.RangeWithoutStep | src/lib/crons/service.ts:172-179 | "a-b" denotes every value from a to b |
| CronText.WholeRange | src/lib/crons/service.ts:161-172 | "*" and "*/s" cover the field's whole range, in steps of s |
| CronText.SingleValue | src/lib/crons/service.ts:180-185 | a number denotes itself, and a step on it changes nothing |
| CronText.NamedValue | src/lib/crons/service.ts:133-140 | every month or weekday name, in any mixture of cases, stands for its number |
| CronText.NamedMonth | src/lib/crons/service.ts:63-76 | each of the twelve month names denotes its number |
| CronText.NamedDay | src/lib/crons/service.ts:78-86 | each of the seven weekday names denotes its number |
| CronText.SkippedIff | src/lib/crons/service.ts:155-186 | a part is skipped if and only if it is empty, its range text is neither a star nor made of names and texts that start with an integer, or its step is not read as a positive number |
| CronText.NumeralField | src/lib/crons/service.ts:142-196 | a field that is one number admits exactly that number |
| CronRules.RangeField | src/lib/crons/service.ts:142-196 | the field "a-b/s" admits a, a + s, a + 2s and so on up to b, and nothing else |
| CronRules.ListField | src/lib/crons/service.ts:142-196 | a comma joins what two texts admit |
| CronRules.NameField | src/lib/crons/service.ts:133-196 | a name admits its value only, with 0 and 7 alike for Sunday |
| CronRules.AnyCase | src/lib/crons/service.ts:133-140 | names are read in any mixture of upper and lower case |
| CronRules.WeekdayIsNamed | src/lib/crons/service.ts:78-109 | the k-th weekday name admits exactly the days that lie k days and whole weeks from Sunday, 4 January 1970 |
| CronRules.MonthIsNamed | src/lib/crons/service.ts:63-108 | the k-th month name admits exactly the minutes of that month |
| CronRules.DateOrWeekday | src/lib/crons/service.ts:103-124 | "m h d * weekday" is due at that time on each such day of the month and on each such weekday |
| CronRules.ExpressionReadsBack | src/lib/ai-runner/shared.ts:477-485 | fields with spaces between them are read as an expression if and only if there are five, each in its place |
| CronFields.SundayHasTwoNames | src/lib/crons/service.ts:151-191 | 0 and 7 are interchangeable as day of week |
| Search.FirstHitsExact | src/lib/crons/service.ts:97-130 | being increasing, in the window, matching, at most `count` and without a gap describes one sequence only |
| NextRuns.ComputeNextRuns | src/lib/crons/service.ts:88-131 | returns exactly the first `count` matching minutes of the 525,600 after the current one; with both fields for days restricted these are the first minutes that match with one of the two left open |
| NextRuns.MinuteMatches | src/lib/crons/service.ts:103-124 | the loop's test is membership in the expression's set of minutes, with OR of the days when both are restricted |
| NextRuns.DayFieldsUnite | src/lib/crons/service.ts:103-124 | two restricted fields for days match the union of what each matches with the other left open, and otherwise the intersection |
| NextRuns.NextRunIsEarlier | src/lib/crons/service.ts:103-131 | with both restricted the next run is the earlier of the two next runs |
| NextRuns.GetNextRunTimeFromExpression | src/lib/ai-runner/shared.ts:477-485 | the least match of the window for five fields, nothing for any other text |
| NextRuns.RunWithinAWeek | src/lib/crons/service.ts:97-130 | with month and day of month unrestricted, a run exists within 10,080 minutes if and only if minute, hour and weekday each admit a value |
| NextRuns.RunWithinAMonth | src/lib/crons/service.ts:97-130 | with month and weekday unrestricted and a day up to the 28th admitted, a run exists within 44,640 minutes if and only if minute and hour admit a value |
| Calendar.EveryDayOfMonthWithin31Days | src/lib/crons/service.ts:97-130 | any 31 consecutive days contain each day of the month up to the 28th, across month lengths and leap years |
| Calendar.DateOfDayNumber | src/lib/crons/service.ts:97-130 | every date since 1970 is the date of its day number, counted by years, Gregorian leap years and month lengths |
| CatchUp.Schedule.CatchUp | src/lib/ai-runner/supervisor.ts:618-708 | one pass attempts the slots of the walk, at most 24 and none later than now, and stores where the walk ends |
| CatchUp.WalkInMinutes | src/lib/ai-runner/supervisor.ts:618-708 | the walk over times is the walk over matching minutes, whose successor is the least match from two minutes later on |
| CatchUp.SuccessorIsNextMatchIff | src/lib/ai-runner/supervisor.ts:698-702 | the successor is the next match if and only if the minute right after the slot does not match |
| CatchUp.SuccessorIsNextTime | src/lib/ai-runner/supervisor.ts:698-702 | the successor of a slot is the first minute with a match that lies more than a minute after it |
| CatchUp.SparseWalk | src/lib/ai-runner/supervisor.ts:618-708 | for expressions without two matching minutes in a row the walk attempts the first due minutes in order and stores the least later match |
| CatchUp.WalkExactIffSparse | src/lib/ai-runner/supervisor.ts:618-708 | the walk keeps that promise from every matching slot at every time if and only if no two consecutive minutes match |
| CatchUp.EveryMinuteIsHalved | src/lib/ai-runner/queue.ts:112-132 | for a schedule of every minute the successor is always two minutes later |
| Yearly.YearlySuccessorIff | src/lib/ai-runner/supervisor.ts:698-707 | a once-a-year schedule finds the same date of the next year if and only if no leap day comes before it, and otherwise stores no next run |
| Yearly.YearlyWalkStopsIff | src/lib/ai-runner/supervisor.ts:618-708 | a pass over a due slot of such a schedule attempts it and stores the same date of the next year, or nothing exactly if a leap day comes first |
| Yearly.YearlyWalkStopsForGood | src/lib/ai-runner/supervisor.ts:618-708 | after a slot before a leap day no pass, however late, attempts another slot |
| Yearly.YearlyExpression | src/lib/crons/service.ts:103-124 | "m h d month *" is such a schedule |
| Calendar.NextAnniversary | src/lib/crons/service.ts:97-130 | within 365 days the same date comes again on the last day only, and there only without a leap day ahead |
| ScheduleSlots.OneJobPerSlot | src/models/AIRunnerJob.ts:127 | over any passes, concurrent or cut short at any step, no slot gets two jobs |
| ScheduleSlots.NoSlotIsLost | src/lib/ai-runner/supervisor.ts:618-708 | the stored nextRunTime never passes a slot of the walk that has no job, no skipped run and no raised error |
| ScheduleSlots.SlotsStep | src/lib/ai-runner/queue.ts:344-375 | each step keeps: every slot before the stored one and before each pass's position is dealt with |
| ScheduleSlots.WalkFollowsSlots | src/lib/ai-runner/supervisor.ts:618-708 | the slots of the crash model are those the catch-up loop attempts |
| ScheduleSlots.PassFollowsWalk | src/lib/ai-runner/supervisor.ts:618-708 | whatever other passes do, a pass makes the attempts of its walk one after another, at most 24 and none after its reading, and when it saves it has made all of them and stores the walk's end |
| ScheduleSlots.BeginsIffDue | src/lib/ai-runner/supervisor.ts:618-640 | a pass begins if and only if its walk has something to attempt |
| ScheduleSlots.UpdateMovesOn | src/lib/ai-runner/queue.ts:112-132 | storing a run moves the schedule to the successor of its slot |
| Autoflows.Autoflow.Advance | src/lib/ai-runner/supervisor.ts:142-265 | the loop body of advanceAutoflows turns a flow into its tick, for any run states and queue answers; it ends the flow as TickEnds says, and currentIndex stays or is the first pending item |
| Autoflows.RefreshItems | src/lib/ai-runner/supervisor.ts:148-183 | the first loop brings every active item to its run's status: failed exactly after a failed or timed-out run, completed, skipped and canceled exactly after a completed, skipped or killed one; it reports no change only if there is none |
| Autoflows.TickEnds | src/lib/ai-runner/supervisor.ts:148-210 | in terms of the runs, a tick fails the flow exactly if an item has failed or its run failed or timed out, with continueOnFailure only once nothing is open; it completes the flow exactly if nothing failed and nothing is open |
| Autoflows.TickRequests | src/lib/ai-runner/supervisor.ts:212-264 | runs are requested for pending items in order, one at a time and never beside an open item in a sequential flow, for all of them in a parallel flow unless one fails that it must stop for |
| Autoflows.TickItems | src/lib/ai-runner/supervisor.ts:142-264 | every item is answered by its request, skipped when the flow stops, or follows its run |
| Autoflows.EnqueueItems | src/lib/ai-runner/supervisor.ts:212-264 | the queueing loop requests runs item by item and stops at the first failure unless the flow goes on |
| Autoflows.Autoflow.Cancel | src/lib/ai-runner/service.ts:1240-1255 | a cancelled flow cancels exactly its items that are not final |
| Autoflows.SequentialOrder | src/lib/ai-runner/supervisor.ts:148-264 | in every run of a sequential flow at most one item is active and the started items form a prefix |
| Autoflows.StartedFlowInOrder | src/lib/ai-runner/supervisor.ts:148-264 | a sequential flow that starts with pending items keeps that order in every run |
| Autoflows.NothingQueuedAfterFailure | src/lib/ai-runner/supervisor.ts:184-264 | without continueOnFailure no run is requested once an item has failed, in either mode |
| Autoflows.EndsIff | src/lib/ai-runner/supervisor.ts:184-210 | when a tick ends the flow, and that it keeps an active item exactly if it is parallel, stops on failure, and has both a failed and an active item |
| Autoflows.EndsFailedIffItemFailed | src/lib/ai-runner/supervisor.ts:184-210 | a flow that ends is failed if an item failed and completed otherwise |
| Autoflows.EndsWhenAllFinal | src/lib/ai-runner/supervisor.ts:184-210 | except for parallel flows that stop on failure, a flow ends only with all items final |
| Autoflows.ParallelStopLeavesActive | src/lib/ai-runner/supervisor.ts:184-197 | a parallel flow that stops on failure can end with an active item |
| Autoflows.TicksMakeProgress | src/lib/ai-runner/supervisor.ts:142-264 | pending items, and with them unchanged active ones, never grow in a tick, and pending ones drop when the queueing loop is reached |
| ShellQuoting.EscapedListLexesBack | src/lib/ai-runner/shared.ts:322-324 | lexing the space-joined escaped arguments gives every argument list back |
| ShellQuoting.EscapedRuns | src/lib/ai-runner/run-as-user.ts:7-9 | an escaped value is read as exactly that value, at any place inside a command line |
| ShellQuoting.LaunchFormsAgree | src/lib/ai-runner/run-as-user.ts:36-55 | with a run-as user, the terminal command line lexes to exactly the arguments of the plain form, and both forms refuse the same inputs |
| ShellQuoting.LaunchRuns | src/lib/ai-runner/run-as-user.ts:11-55 | in both forms the given shell runs the given command, through sudo as the named user if there is one; refused are exactly names that are no user names and modes other than passwordless sudo |
| ShellQuoting.UserNameIff | src/lib/ai-runner/run-as-user.ts:4 | a user name starts with a letter or underscore, goes on for up to 62 letters, digits, underscores, dots or hyphens, and may end in a dollar sign |
| ShellQuoting.PlainTerminalFormAgreesIff | src/lib/ai-runner/run-as-user.ts:30-34 | without a user the two forms agree for every command if and only if the shell setting is one plain word |
| AutoUpdates.TakingOverCountsOnce | src/lib/apps/auto-update.ts:97-142 | replaying an outcome that was counted is refused; counting a new one keeps the counter equal to the trailing run of failures |
| Projections.OutcomesCountOnce | src/lib/apps/auto-update.ts:68-149 | in every run, cut short and interleaved anywhere, each outcome counts at most once and in finishing order, consecutiveFailures is the trailing run of failures, the counted outcomes are exactly those an update step accepted, and every marked operation was counted or refused by the filter of an update step |
| Projections.Reconciler.Reconcile | src/lib/apps/auto-update.ts:68-149 | a pass takes only steps of that protocol, is completed exactly if it is not stopped, and then has marked its whole batch; left alone it replays the batch in finishing order |
| Projections.BatchIsOldest | src/lib/apps/auto-update.ts:69-76 | a batch is the oldest unmarked operations, at most 100 with other apps' operations, and all of them below that limit |
| Projections.CountsIff | src/lib/apps/auto-update.ts:97-142 | the update of an outcome counts it, if it was not counted before, if and only if the generation matches and the app still names this operation, none, or this slot |
| Projections.LostForGood | src/lib/apps/auto-update.ts:68-149 | an outcome that is marked without being counted is never counted later |
| Projections.OutcomeIsLost | src/lib/apps/worker/legacy-executor.ts:63-71 | a run in which a failed manual update is marked and never counted, because the next operation registered itself first |
| AutoUpdates.CancelledReplayIsNoOp | src/lib/apps/auto-update.ts:78-95 | replaying a cancelled automatic operation changes nothing |
| AutoUpdates.RetriesBackOff | src/lib/apps/domain/auto-update-policy.ts:1-8 | more failures never shorten the wait and it never exceeds the app's interval |
| AutoUpdates.OutcomeSchedules | src/lib/apps/auto-update.ts:97-142 | what an outcome that is taken over makes of the failure count, the next run and the retry: one interval after success or a configuration error, else 1, 5, 15, 60 minutes and then the interval, never more than the interval, and no times for a disabled app |
| AutoUpdates.MovesSlotIff | src/lib/apps/auto-update.ts:78-95 | a cancelled operation moves its slot on exactly if the app is enabled, in the same generation and still waits for it, to now or a millisecond past the slot |
| AutoUpdates.CancelledLeavesCounts | src/lib/apps/auto-update.ts:78-97 | a cancelled operation changes nothing if it was manual, and at most slot and retry otherwise |
| AutoUpdates.Unprojected | src/lib/apps/auto-update.ts:69-76 | the query returns exactly the unmarked operations in finishing order |
| Deployments.Host.Deploy | src/lib/apps/deploy.ts:396-607 | outcome, link, service and number of restarts, for each of the five outcomes, are decided by the start and the host's answers alone. Active, exactly if every step passes: link on the new release, service restarted from it, a health check passed since, certificate in place |
| Deployments.FailureRestoresLink | src/lib/apps/deploy.ts:580-606 | a failed deployment that started from nothing or from a readable link ends where it started, if removing works |
| Deployments.RestoredIff | src/lib/apps/deploy.ts:580-606 | for every start, when a failed deployment leaves `current` as it was, in terms of the start, how far the steps got and what works |
| Deployments.FailedBuildDeletesFile | src/lib/apps/deploy.ts:600-602 | a regular file at `current` is deleted although only the build failed |
| Deployments.FailedUnlinkLeavesRelease | src/lib/apps/deploy.ts:600-602 | an unlink that fails silently leaves the link to the failed release where nothing was |
| Deployments.RestartUncompensatedIff | src/lib/apps/deploy.ts:589-599 | a deployment that issued its restart and does not become active leaves it uncompensated if and only if the signal had fired, no earlier target was read, the restart failed or its logging threw, or the compensation cannot put the link back or issue its own restart; otherwise the service is back on the earlier link if the second restart succeeds |
| Deployments.FailedRestartIsNotCompensated | src/lib/apps/deploy.ts:589-599 | after a failing restart the link goes back but the service is not restarted |
| Deployments.AbortIsNotCompensated | src/lib/apps/deploy.ts:580-588 | a signal that fires after a good restart leaves link and service on the new release |
| Deployments.BrokenReplacementLosesLink | src/lib/apps/deploy.ts:589-599 | if the earlier link cannot be renamed into place, no link is left and the service still runs the new release |
| Deployments.BrokenRestartLeavesNewRelease | src/lib/apps/deploy.ts:589-599 | if the second restart cannot be issued, the link is back and the service still runs the new release |
| Deployments.Host.TryDeploy | src/lib/apps/deploy.ts:434-579 | the try block ends normally exactly if every planned step passes, and otherwise link, service and restarts are those of the step at which it stops |
| Deployments.Host.Compensate | src/lib/apps/deploy.ts:580-606 | puts the earlier target back or removes what it finds, restarts the service exactly if the first restart was noted, and succeeds exactly if its own steps work |
| Deployments.Host.ReplaceSymlink | src/lib/apps/deploy.ts:213-218 | what the link is after each way the three steps can end |
| Deployments.Host.ReadCurrentTarget | src/lib/apps/deploy.ts:203-211 | the target is reported exactly if the path is a link that can be inspected and read; a failing readlink throws |
| Deployments.ProgressIff | src/lib/apps/deploy.ts:434-579 | how far the steps get is decided by the answers alone: all earlier ones pass and this one does not |
| Deployments.WaitForHealthy | src/lib/apps/deploy.ts:353-394 | succeeds if and only if some check within the attempts passes with nothing thrown before it |
| Deployments.RunCertbot | src/lib/apps/deploy.ts:268-309 | succeeds if and only if certbot issues after only busy answers within the limit, which is at least one run |

## Left out

- Exclusion.WorkspaceExclusion: needs recoveries and claims within the lease, because no write is fenced by it; `Overlap.LateTicksBreakExclusionAndCap` shows a run without.
- Concurrency.ActiveJobsWithinCap: needs the same; the same run shows why.
- Attempts.AttemptsWithinMax: needs retries that are affordable when written, which `Attempts.WithinBudgetIffAffordable` shows to be necessary too.
- Agreement.JobsAndRunsAgree: takes each pair of writes to a job and its run as one step, also where the code writes one after the other; between the two writes the statuses differ.
- Agreement.AgreementStep: the same merging of paired writes.
- SupervisorCode.Supervisor.DispatchRunnableJobs: termination is counted in rounds and without interference; a job whose worker never starts can be dispatched again forever.
- SupervisorCode.Supervisor.ReconcileStaleJobs: the snapshot's sort order is not modelled, any order is allowed.
- WorkerCode.AIRunnerWorker.Run: one event at a time; a heartbeat callback that overlaps finalize is a step of the protocol but not of this method, and output, metrics, worktrees and a missing run document are not part of it.
- WebCode.RunService.KillRun: covers runs that have a job; a run without one is set to killed directly.
- RunQueues.RunQueue.EnqueueResolvedRun: one call at a time; whether the workspace of a manual run is blocked is an input.
- CronFields.MatchesCronField: fields with numbers beyond the exact range of JavaScript numbers, and field texts equal to built-in property names, are not modelled.
- NextRuns.ComputeNextRuns: a clock with a fixed offset; time zones and daylight saving are not modelled.
- CatchUp.SparseWalk: says nothing beyond the search window of 525,600 minutes; `Yearly.YearlySuccessorIff` says what that means for yearly schedules.
- ScheduleSlots.NoSlotIsLost: schedules stay enabled and unedited and no manual run uses the schedule; pausing schedules globally is not modelled.
- Autoflows.Autoflow.Advance: a crash between requesting a run and saving the flow is not modelled.
- ShellQuoting.EscapedListLexesBack: the lexer covers quoting and token recognition only and gives up on every other special character, so "plain word" in the launch results is judged by quoting alone.
- Projections.Reconciler.Reconcile: one app and one reconciler; operations are ordered by the moment they finish, and deleted apps, dates, hashes and messages of the update record are not part of the model.
- AutoUpdates.Unprojected: one app's operations; the batch limit is shared with other apps' operations, and their part of it is an input.
- Projections.CountsIff: an operation without a scheduled time is treated as matching no stored time.
- Deployments.Host.Deploy: release contents, unit and nginx files, ownership checks and log entries are only steps that may throw; when the signal fires is known at the step that throws; temporary links left by a failed replacement and half-removed directories are not modelled.
- Worktree handling, artifact files, log files, execution units and process control of the AI Runner: inputs and outputs of the steps, not logic.
- Invocation templates: text replacement with JavaScript's special patterns is not a round trip.
- Import, export, create, read, update and delete operations and their mapping to transfer objects: long but simple.
- Retention cleanup, statistics, metrics, sessions, passkeys, terminal sockets and the user interface: no protocol of this kind.
- Enqueuing of app operations and their workers: any order of finished operations is allowed instead.
