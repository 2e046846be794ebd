/**
 Job documents of the AI Runner and every write the code makes to one of them.

 A document is a value; a write is a function from the document in the database
 (`doc`) to the document stored in its place. Writes that the code computes from an
 earlier read take that read as a separate argument (`seen`), because the document may
 have changed in the meantime. Times are milliseconds.
 */
module Jobs {
  import opened Wrappers

  type JobId = nat
  type WorkspaceId = nat

  const LEASE_TTL_MS := 20_000
  const HEARTBEAT_STALE_MS := 20_000
  const RETRY_DELAY_MS := 15_000
  const DEFAULT_MAX_ATTEMPTS := 2
  const CANDIDATE_LIMIT := 25

  datatype JobStatus = Queued | Dispatched | Running | Retrying | Completed | Failed | Canceled

  datatype RunStatus =
    | RunQueued | RunRunning | RunRetrying | RunSkipped
    | RunCompleted | RunFailed | RunTimeout | RunKilled

  /**
   `run` is the status of the linked run document: each pair of job and run writes is one step.
   `dispatchCount` is a history variable (how often the job was dispatched), not a stored field.
   */
  datatype Job = Job(
    status: JobStatus,
    run: RunStatus,
    attemptCount: nat,
    maxAttempts: nat,
    workspace: Option<WorkspaceId>,
    blocking: bool,
    worktrees: bool,
    cancelRequested: bool,
    nextAttemptAt: Option<int>,
    scheduledFor: Option<int>,
    createdAt: int,
    heartbeatAt: Option<int>,
    startedAt: Option<int>,
    timeoutMinutes: nat,
    dispatchCount: nat)

  type JobTable = map<JobId, Job>

  datatype ExitMarker = ExitMarker(exitCode: int, finishedAt: int)

  predicate IsActive(j: Job) {
    j.status == Dispatched || j.status == Running
  }

  predicate IsWaiting(j: Job) {
    j.status == Queued || j.status == Retrying
  }

  function Active(jobs: JobTable): set<JobId> {
    set id | id in jobs && IsActive(jobs[id])
  }

  function Waiting(jobs: JobTable): set<JobId> {
    set id | id in jobs && IsWaiting(jobs[id])
  }

  /** The job may not share its workspace with another active job. */
  predicate ClaimsWorkspace(j: Job) {
    j.workspace.Some? && j.blocking && !j.worktrees && !j.cancelRequested
  }

  predicate IsStale(j: Job, now: int) {
    IsActive(j) && j.heartbeatAt.Some? && j.heartbeatAt.value <= now - HEARTBEAT_STALE_MS
  }

  // ---- dispatch ---------------------------------------------------------------------

  predicate IsRunnable(j: Job, now: int) {
    IsWaiting(j) && (j.nextAttemptAt.None? || j.nextAttemptAt.value <= now) && !j.cancelRequested
  }

  function Runnable(jobs: JobTable, now: int): set<JobId> {
    set id | id in jobs && IsRunnable(jobs[id], now)
  }

  /** `other` is found by the query of isWorkspaceBlocked for job `id`. */
  predicate IsRival(jobs: JobTable, id: JobId, other: JobId)
    requires id in jobs
  {
    && other in jobs && other != id
    && IsActive(jobs[other])
    && jobs[other].blocking
    && jobs[other].workspace == jobs[id].workspace
    && !jobs[other].cancelRequested
  }

  predicate IsBlocked(jobs: JobTable, id: JobId)
    requires id in jobs
  {
    && !jobs[id].worktrees && jobs[id].blocking && jobs[id].workspace.Some?
    && exists other | other in jobs :: IsRival(jobs, id, other)
  }

  /** An absent key sorts before every present one. */
  predicate KeyBefore(a: Option<int>, b: Option<int>) {
    b.Some? && (a.None? || a.value < b.value)
  }

  /** Strict order of the sort { scheduledFor, nextAttemptAt, createdAt }. */
  predicate SortsBefore(a: Job, b: Job) {
    || KeyBefore(a.scheduledFor, b.scheduledFor)
    || (&& a.scheduledFor == b.scheduledFor
        && (|| KeyBefore(a.nextAttemptAt, b.nextAttemptAt)
            || (a.nextAttemptAt == b.nextAttemptAt && a.createdAt < b.createdAt)))
  }

  /** `found` is a possible answer to the sorted, limited candidate query. */
  ghost predicate IsCandidateList(jobs: JobTable, now: int, found: seq<JobId>) {
    && (forall k | 0 <= k < |found| :: found[k] in Runnable(jobs, now))
    && (forall k, l | 0 <= k < l < |found| :: found[k] != found[l] && !SortsBefore(jobs[found[l]], jobs[found[k]]))
    && (forall id, k | id in Runnable(jobs, now) && id !in found && 0 <= k < |found| :: !SortsBefore(jobs[id], jobs[found[k]]))
    && |found| <= CANDIDATE_LIMIT
    && (|found| < CANDIDATE_LIMIT ==> forall id | id in Runnable(jobs, now) :: id in found)
  }

  function Dispatch(doc: Job, now: int): Job {
    doc.(status := Dispatched, heartbeatAt := Some(now), dispatchCount := doc.dispatchCount + 1)
  }

  function RecordWorker(doc: Job, now: int): Job {
    doc.(heartbeatAt := Some(now))
  }

  // ---- worker -----------------------------------------------------------------------

  function Start(doc: Job, now: int): Job {
    doc.(status := Running, run := RunRunning, startedAt := Some(now), heartbeatAt := Some(now),
         attemptCount := doc.attemptCount + 1)
  }

  function FailToLaunch(doc: Job): Job {
    doc.(status := Failed, run := RunFailed)
  }

  predicate ShouldRetry(j: Job) {
    j.attemptCount < j.maxAttempts
  }

  /** Setting a key to undefined may or may not clear it: `clears` decides. */
  function QueueRetry(doc: Job, now: int, clears: bool): Job {
    doc.(status := Retrying, run := RunRetrying, nextAttemptAt := Some(now + RETRY_DELAY_MS),
         heartbeatAt := if clears then None else doc.heartbeatAt)
  }

  predicate FinalizeRetries(seen: Job, outcome: RunStatus) {
    outcome != RunCompleted && outcome != RunKilled && ShouldRetry(seen) && !seen.cancelRequested
  }

  /** The second half of finalize: `seen` is the job as finalize read it. */
  function Finalize(doc: Job, seen: Job, outcome: RunStatus, now: int, clears: bool): Job {
    if FinalizeRetries(seen, outcome) then
      QueueRetry(doc, now, clears)
    else
      doc.(status := if outcome == RunCompleted then Completed else if outcome == RunKilled then Canceled else Failed,
           run := outcome, heartbeatAt := Some(now))
  }

  // ---- stale recovery ---------------------------------------------------------------

  predicate IsTimedOut(seen: Job, now: int) {
    seen.startedAt.Some? && now > seen.startedAt.value + seen.timeoutMinutes * 60_000
  }

  predicate RecoveryRetries(seen: Job, exit: Option<ExitMarker>, alive: bool, now: int) {
    match exit
    case Some(marker) => marker.exitCode != 0 && !seen.cancelRequested && ShouldRetry(seen)
    case None =>
      && !(alive && !IsTimedOut(seen, now) && !seen.cancelRequested)
      && !seen.cancelRequested && !IsTimedOut(seen, now) && ShouldRetry(seen)
  }

  predicate RecoveryKeepsRunning(seen: Job, exit: Option<ExitMarker>, alive: bool, now: int) {
    exit.None? && alive && !IsTimedOut(seen, now) && !seen.cancelRequested
  }

  /** One iteration of reconcileStaleJobs: `seen` comes from the snapshot it iterates over. */
  function Recover(doc: Job, seen: Job, exit: Option<ExitMarker>, alive: bool, decidedAt: int, now: int,
                   clears: bool): Job {
    if RecoveryRetries(seen, exit, alive, decidedAt) then
      QueueRetry(doc, now, clears)
    else if RecoveryKeepsRunning(seen, exit, alive, decidedAt) then
      doc.(status := Running, run := RunRunning, heartbeatAt := Some(now))
    else
      match exit
      case Some(marker) =>
        if marker.exitCode == 0 then
          doc.(status := Completed, run := RunCompleted, heartbeatAt := Some(marker.finishedAt))
        else
          doc.(status := Failed, run := RunFailed, heartbeatAt := Some(marker.finishedAt))
      case None =>
        if seen.cancelRequested then doc.(status := Canceled, run := RunKilled)
        else if IsTimedOut(seen, decidedAt) then doc.(status := Failed, run := RunTimeout)
        else doc.(status := Failed, run := RunFailed)
  }

  /**
   What a recovery decides from a job, status by status. A timeout that recovery finds is final, while a worker's
   own timeout is retried.
   */
  lemma RecoveryDecides(seen: Job, exit: Option<ExitMarker>, alive: bool, at: int, now: int, clears: bool)
    ensures var j := Recover(seen, seen, exit, alive, at, now, clears);
            var late := seen.startedAt.Some? && at > seen.startedAt.value + seen.timeoutMinutes * 60_000;
            && (j.status == Completed <==> exit.Some? && exit.value.exitCode == 0)
            && (j.status == Canceled <==> exit.None? && seen.cancelRequested)
            && (j.status == Running <==> exit.None? && !seen.cancelRequested && alive && !late)
            && (j.status == Retrying <==>
                  && !seen.cancelRequested && seen.attemptCount < seen.maxAttempts
                  && if exit.Some? then exit.value.exitCode != 0 else !alive && !late)
            && j.status in {Completed, Canceled, Running, Retrying, Failed}
            && (j.run == RunTimeout <==> exit.None? && !seen.cancelRequested && late)
            && (j.run == RunFailed <==> j.status == Failed && j.run != RunTimeout)
            && (j.status == Running ==> j.heartbeatAt == Some(now))
            && (exit.Some? && j.status != Retrying ==> j.heartbeatAt == Some(exit.value.finishedAt))
            && (j.status == Retrying ==>
                  j.nextAttemptAt == Some(now + 15_000) && j.heartbeatAt == if clears then None else seen.heartbeatAt)
            && j == seen.(status := j.status, run := j.run, heartbeatAt := j.heartbeatAt, nextAttemptAt := j.nextAttemptAt)
  {
  }

  // ---- web process ------------------------------------------------------------------

  /** killRun: `seen` is the status the job had when killRun read it. */
  function Kill(doc: Job, seen: JobStatus): Job {
    if seen == Queued || seen == Retrying then
      doc.(status := Canceled, run := RunKilled, cancelRequested := true)
    else
      doc.(cancelRequested := true)
  }

  predicate KillRefuses(run: RunStatus) {
    run == RunCompleted || run == RunFailed || run == RunTimeout || run == RunKilled
  }

  /** maxAttempts as resolveExecutionRequest clamps it: `retries` is the schedule's, if there is one. */
  function MaxAttemptsFor(retries: Option<int>): (attempts: nat)
    ensures 1 <= attempts <= 10
  {
    match retries
    case Some(r) => (if r < 0 then 0 else if r > 9 then 9 else r) + 1
    case None => DEFAULT_MAX_ATTEMPTS
  }

  /** Up to nine retries each allow one attempt more, no other number allows fewer or more, and one is the default. */
  lemma RetriesAddAttempts(fewer: int, more: int)
    requires fewer <= more
    ensures MaxAttemptsFor(Some(fewer)) <= MaxAttemptsFor(Some(more))
    ensures 0 <= fewer && more <= 9 ==> MaxAttemptsFor(Some(more)) - MaxAttemptsFor(Some(fewer)) == more - fewer
    ensures MaxAttemptsFor(Some(0)) == 1 && MaxAttemptsFor(Some(9)) == 10 && MaxAttemptsFor(None) == MaxAttemptsFor(Some(1))
  {
  }

  /** The job document that enqueueResolvedRun creates. */
  function NewJob(retries: Option<int>, workspace: Option<WorkspaceId>, blocking: bool, worktrees: bool,
                  timeoutMinutes: nat, queuedAt: int, scheduledFor: Option<int>, createdAt: int): Job {
    Job(Queued, RunQueued, 0, MaxAttemptsFor(retries), workspace, blocking, worktrees, false,
        Some(queuedAt), scheduledFor, createdAt, None, None, timeoutMinutes, 0)
  }
}
