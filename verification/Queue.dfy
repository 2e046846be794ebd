/**
 enqueueResolvedRun creates a run and a job one after the other, takes the run back when the job is refused, and then
 moves the linked schedule on.
 */
module RunQueues {
  import opened Wrappers
  import opened Jobs
  import CatchUp
  import NextRuns

  type RunKey = nat
  type ScheduleId = nat

  datatype RunEntry = RunEntry(status: RunStatus, job: Option<JobId>)
  datatype JobEntry = JobEntry(run: RunKey, schedule: Option<ScheduleId>, scheduledFor: Option<int>, maxAttempts: nat)

  datatype ScheduleEntry = ScheduleEntry(
    lastRun: Option<RunKey>, lastStatus: Option<RunStatus>, lastRunAt: Option<int>, lastSlot: Option<int>, nextRunTime: Option<int>)

  /** `workspaceBlocked` is the answer of the query that a manual run makes. */
  datatype Resolved = Resolved(
    schedule: Option<ScheduleId>, cron: string, profileLocked: bool, retries: Option<int>, manual: bool, workspaceBlocked: bool)

  /** Which writes work; the unique index is asked separately. Writing no time clears the stored one or leaves it. */
  datatype Writes = Writes(
    runStored: bool, jobStored: bool, runDeleted: bool, linkStored: bool, scheduleStored: bool, clears: bool)

  datatype Enqueued = SkippedByLock(run: RunKey) | QueuedAs(run: RunKey, job: JobId) | Raised

  /** A schedule's run without a slot of its own takes the time of the request. */
  function SlotOf(resolved: Resolved, scheduledFor: Option<int>, queuedAt: int): Option<int> {
    if scheduledFor.Some? then scheduledFor else if resolved.schedule.Some? then Some(queuedAt) else None
  }

  type RunEntries = map<RunKey, RunEntry>
  type JobEntries = map<JobId, JobEntry>

  /** The unique index over schedule and slot refuses `entry`; jobs without a schedule are not in it. */
  predicate SlotTaken(jobs: JobEntries, entry: JobEntry) {
    entry.schedule.Some? && exists id | id in jobs :: jobs[id].schedule == entry.schedule && jobs[id].scheduledFor == entry.scheduledFor
  }

  function NewEntry(run: RunKey, resolved: Resolved, scheduledFor: Option<int>, queuedAt: int): JobEntry {
    JobEntry(run, resolved.schedule, SlotOf(resolved, scheduledFor, queuedAt), MaxAttemptsFor(resolved.retries))
  }

  /** A job has the slot that was asked for; without one, a schedule's job takes the time of the request and others none. */
  lemma SlotOfNewEntry(run: RunKey, resolved: Resolved, scheduledFor: Option<int>, queuedAt: int)
    ensures var entry := NewEntry(run, resolved, scheduledFor, queuedAt);
            && entry.run == run && entry.schedule == resolved.schedule
            && (entry.scheduledFor == scheduledFor <==> scheduledFor.Some? || resolved.schedule.None?)
            && (scheduledFor.None? && resolved.schedule.Some? ==> entry.scheduledFor == Some(queuedAt))
  {
  }

  ghost predicate RunsLinkBack(runs: RunEntries, jobs: JobEntries) {
    forall r | r in runs && runs[r].job.Some? :: runs[r].job.value in jobs && jobs[runs[r].job.value].run == r
  }

  ghost predicate JobsHaveRuns(runs: RunEntries, jobs: JobEntries) {
    forall id | id in jobs :: jobs[id].run in runs && runs[jobs[id].run].job in {None, Some(id)}
  }

  ghost predicate SlotsUnique(jobs: JobEntries) {
    forall a, b | a in jobs && b in jobs && a != b && jobs[a].schedule.Some? && jobs[a].schedule == jobs[b].schedule ::
      jobs[a].scheduledFor != jobs[b].scheduledFor
  }

  /** Jobs and runs point at each other, up to links that were not stored, and no slot has two jobs. */
  ghost predicate Linked(runs: RunEntries, jobs: JobEntries) {
    RunsLinkBack(runs, jobs) && JobsHaveRuns(runs, jobs) && SlotsUnique(jobs)
  }

  lemma RunAdded(runs: RunEntries, jobs: JobEntries, run: RunKey, status: RunStatus)
    requires Linked(runs, jobs) && run !in runs
    ensures Linked(runs[run := RunEntry(status, None)], jobs)
  {
  }

  lemma JobAdded(runs: RunEntries, jobs: JobEntries, job: JobId, entry: JobEntry)
    requires Linked(runs, jobs) && job !in jobs && !SlotTaken(jobs, entry)
    requires entry.run in runs && runs[entry.run].job.None?
    ensures Linked(runs, jobs[job := entry])
  {
  }

  lemma LinkStored(runs: RunEntries, jobs: JobEntries, run: RunKey, job: JobId)
    requires Linked(runs, jobs) && run in runs && job in jobs && jobs[job].run == run
    requires forall other | other in jobs && other != job :: jobs[other].run != run
    ensures Linked(runs[run := runs[run].(job := Some(job))], jobs)
  {
  }

  /**
   What creating a run and its job leaves, decided by the input and by which writes work. A locked profile leaves a
   skipped run and no job. Otherwise a run is queued with exactly one new job, linked both ways, exactly if the slot is
   free and every write works; if not, at most one run is left over, without a link, and a taken slot adds no job.
   */
  ghost predicate IsCreated(runsBefore: RunEntries, jobsBefore: JobEntries, runs: RunEntries, jobs: JobEntries,
                            resolved: Resolved, scheduledFor: Option<int>, queuedAt: int, writes: Writes, created: Enqueued) {
    var taken := SlotTaken(jobsBefore, NewEntry(0, resolved, scheduledFor, queuedAt));
    && (created.SkippedByLock? <==> resolved.profileLocked && writes.runStored)
    && (created.QueuedAs? <==> !resolved.profileLocked && writes.runStored && writes.jobStored && writes.linkStored && !taken)
    && (created.SkippedByLock? ==>
          && created.run !in runsBefore
          && runs == runsBefore[created.run := RunEntry(RunSkipped, None)] && jobs == jobsBefore)
    && (created.QueuedAs? ==>
          && created.run !in runsBefore && created.job !in jobsBefore
          && runs == runsBefore[created.run := RunEntry(RunQueued, Some(created.job))]
          && jobs == jobsBefore[created.job := NewEntry(created.run, resolved, scheduledFor, queuedAt)])
    && (created.Raised? ==>
          || (runs == runsBefore && jobs == jobsBefore)
          || exists run: RunKey | run !in runsBefore ::
               && runs == runsBefore[run := RunEntry(RunQueued, None)]
               && (jobs == jobsBefore
                   || exists job: JobId | job !in jobsBefore ::
                        jobs == jobsBefore[job := NewEntry(run, resolved, scheduledFor, queuedAt)]))
    && (created.Raised? && (writes.runDeleted || !writes.runStored) && writes.linkStored ==> runs == runsBefore)
    && (taken ==> jobs == jobsBefore)
  }

  /** What updateLinkedScheduleAfterRun stores: the run, and the successor of its slot as the next time. */
  function MovedOn(entry: ScheduleEntry, created: Enqueued, resolved: Resolved, scheduledFor: Option<int>, queuedAt: int,
                   clears: bool): ScheduleEntry
    requires !created.Raised?
  {
    var next := CatchUp.Successor(resolved.cron, scheduledFor.GetOr(queuedAt));
    ScheduleEntry(
      Some(created.run), Some(if created.SkippedByLock? then RunSkipped else RunQueued), Some(queuedAt),
      if scheduledFor.Some? || clears then scheduledFor else entry.lastSlot,
      if next.Some? || clears then next else entry.nextRunTime)
  }

  /**
   The schedule after a run of it was created: it names that run, and its next time lies more than a minute after the
   slot, on the first minute from then on that the expression matches.
   */
  lemma MovesOnToNextMatch(entry: ScheduleEntry, created: Enqueued, resolved: Resolved, scheduledFor: Option<int>,
                           queuedAt: int, clears: bool)
    requires !created.Raised?
    ensures var after := MovedOn(entry, created, resolved, scheduledFor, queuedAt, clears);
            var slot := if scheduledFor.Some? then scheduledFor.value else queuedAt;
            && after.lastRun == Some(created.run) && after.lastRunAt == Some(queuedAt)
            && after.lastStatus == (if created.QueuedAs? then Some(RunQueued) else Some(RunSkipped))
            && (scheduledFor.Some? ==> after.lastSlot == scheduledFor)
            && (after.nextRunTime == entry.nextRunTime || (clears && after.nextRunTime.None?)
                || (&& after.nextRunTime.Some? && NextRuns.ParseExpression(resolved.cron).Some?
                    && CatchUp.IsNextTime(NextRuns.MatchSet(NextRuns.ParseExpression(resolved.cron).value), slot, after.nextRunTime.value)))
  {
    var slot := scheduledFor.GetOr(queuedAt);
    if CatchUp.Successor(resolved.cron, slot).Some? {
      CatchUp.SuccessorIsNextTime(resolved.cron, NextRuns.ParseExpression(resolved.cron).value, slot);
    }
  }

  predicate MayNotQueue(resolved: Resolved) {
    !resolved.profileLocked && resolved.manual && resolved.workspaceBlocked
  }

  class RunQueue {
    var runs: RunEntries
    var jobs: JobEntries
    var schedules: map<ScheduleId, ScheduleEntry>

    constructor (schedules: map<ScheduleId, ScheduleEntry>)
      ensures Linked(runs, jobs) && runs == map[] && jobs == map[] && this.schedules == schedules
    {
      runs, jobs, this.schedules := map[], map[], schedules;
    }

    method Create(resolved: Resolved, scheduledFor: Option<int>, queuedAt: int, writes: Writes) returns (created: Enqueued)
      requires Linked(runs, jobs)
      modifies this`runs, this`jobs
      ensures Linked(runs, jobs)
      ensures IsCreated(old(runs), old(jobs), runs, jobs, resolved, scheduledFor, queuedAt, writes, created)
    {
      var run := Fresh(runs.Keys);
      if !writes.runStored { return Raised; }
      var status := if resolved.profileLocked then RunSkipped else RunQueued;
      RunAdded(runs, jobs, run, status);
      runs := runs[run := RunEntry(status, None)];
      if resolved.profileLocked { return SkippedByLock(run); }
      var entry := NewEntry(run, resolved, scheduledFor, queuedAt);
      if !writes.jobStored || SlotTaken(jobs, entry) {
        if writes.runDeleted {
          runs := runs - {run};
          assert runs == old(runs);
        }
        return Raised;
      }
      var job := Fresh(jobs.Keys);
      JobAdded(runs, jobs, job, entry);
      assert forall other | other in jobs :: jobs[other].run in old(runs);
      jobs := jobs[job := entry];
      if !writes.linkStored { return Raised; }
      LinkStored(runs, jobs, run, job);
      runs := runs[run := RunEntry(RunQueued, Some(job))];
      return QueuedAs(run, job);
    }

    /**
     enqueueResolvedRun. A manual run of a blocked workspace is refused before anything is written, unless its profile
     is locked. Otherwise `created` says what IsCreated makes of the documents; then the linked schedule moves on to the
     successor of the run's slot, and the call raises after all if that write fails.
     */
    method EnqueueResolvedRun(resolved: Resolved, scheduledFor: Option<int>, queuedAt: int, writes: Writes)
      returns (result: Enqueued, created: Enqueued)
      requires Linked(runs, jobs)
      modifies this
      ensures Linked(runs, jobs)
      ensures MayNotQueue(resolved) ==>
                result == created == Raised && runs == old(runs) && jobs == old(jobs) && schedules == old(schedules)
      ensures !MayNotQueue(resolved) ==>
                && IsCreated(old(runs), old(jobs), runs, jobs, resolved, scheduledFor, queuedAt, writes, created)
                && result == (if resolved.schedule.Some? && !writes.scheduleStored then Raised else created)
                && schedules == (if created.Raised? || resolved.schedule.None? || !writes.scheduleStored
                                    || resolved.schedule.value !in old(schedules) then old(schedules)
                                 else
                                   var id := resolved.schedule.value;
                                   old(schedules)[id := MovedOn(old(schedules)[id], created, resolved, scheduledFor, queuedAt, writes.clears)])
    {
      if MayNotQueue(resolved) { return Raised, Raised; }
      created := Create(resolved, scheduledFor, queuedAt, writes);
      result := created;
      if created.Raised? || resolved.schedule.None? { return; }
      if !writes.scheduleStored {
        result := Raised;
        return;
      }
      var id := resolved.schedule.value;
      if id in schedules {
        schedules := schedules[id := MovedOn(schedules[id], created, resolved, scheduledFor, queuedAt, writes.clears)];
      }
    }
  }
}
