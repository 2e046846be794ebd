/** Workspace exclusion, under free interleaving. */
module Exclusion {
  import opened Wrappers
  import opened Jobs
  import opened Engine
  import opened LeaseSafety

  // ---- what a step may do to the job documents --------------------------------------

  /** The one job, if any, that a step may turn from inactive to active. */
  function Wakes(s: State, step: Step): set<JobId>
    requires Enabled(s, step)
  {
    match step
    case BySupervisor(i, RecoverJob(job, _, _, _, _)) => {job}
    case BySupervisor(i, ClaimJob) => {s.supervisors[i].point.job}
    case _ => {}
  }

  ghost predicate SameClaim(old_: Job, new_: Job) {
    && new_.workspace == old_.workspace && new_.blocking == old_.blocking && new_.worktrees == old_.worktrees
    && (old_.cancelRequested ==> new_.cancelRequested)
  }

  /** Documents are never removed, keep their claim, and become active only inside `woken`. */
  ghost predicate Evolves(before: JobTable, after: JobTable, woken: set<JobId>) {
    && before.Keys <= after.Keys
    && (forall id | id in before :: SameClaim(before[id], after[id]))
    && Active(after) <= Active(before) + woken
  }

  lemma StepEvolves(s: State, step: Step)
    requires Enabled(s, step)
    ensures Evolves(s.jobs, Next(s, step).jobs, Wakes(s, step))
  {
    OneWrite(s, step);
    match WriteOf(s, step)
    case NoWrite =>
    case Put(id, doc) => PutEvolves(s, step);
  }

  /** A write keeps the claim of its document and makes it active only inside `woken`. */
  ghost predicate WriteEvolves(jobs: JobTable, w: JobWrite, woken: set<JobId>) {
    w.Put? ==>
      && (w.id in jobs ==> SameClaim(jobs[w.id], w.doc))
      && (IsActive(w.doc) ==> w.id in woken || (w.id in jobs && IsActive(jobs[w.id])))
  }

  lemma TickWriteEvolves(s: State, i: SupervisorId, a: SupervisorAction)
    requires TickingAt(s, i) && PointEnabled(s, s.supervisors[i].point, a) && IsTickAction(a)
    ensures WriteEvolves(s.jobs, TickWrite(s, s.supervisors[i].point, a), Wakes(s, BySupervisor(i, a)))
  {
  }

  lemma WorkerWriteEvolves(s: State, w: WorkerId, a: WorkerAction)
    requires WorkerEnabled(s, w, a)
    ensures WriteEvolves(s.jobs, WorkerWrite(s, w, a), {})
  {
  }

  lemma PutEvolves(s: State, step: Step)
    requires Enabled(s, step)
    ensures WriteEvolves(s.jobs, WriteOf(s, step), Wakes(s, step))
  {
    match step
    case Wait(_) =>
    case BySupervisor(i, a) => if IsTickAction(a) { TickWriteEvolves(s, i, a); }
    case ByWorker(w, a) => WorkerWriteEvolves(s, w, a);
    case ByWeb(k, a) =>
  }

  // ---- exclusion --------------------------------------------------------------------

  /** No two distinct jobs of `ids` claim the same workspace. */
  ghost predicate ConflictFree(jobs: JobTable, ids: set<JobId>) {
    forall a, b | a in ids && b in ids && a != b && a in jobs && b in jobs
                  && ClaimsWorkspace(jobs[a]) && ClaimsWorkspace(jobs[b]) ::
      jobs[a].workspace != jobs[b].workspace
  }

  /** What the live supervisor's local variables say about the documents. */
  ghost predicate ExclusionAt(jobs: JobTable, p: TickPoint) {
    match p
    case Recovering(todo) => todo.Keys <= jobs.Keys && ConflictFree(jobs, Active(jobs) + todo.Keys)
    case Selected(_, _, _, job) => job in jobs && !IsBlocked(jobs, job)
    case _ => true
  }

  ghost predicate ExclusionInv(s: State) {
    && ConflictFree(s.jobs, Active(s.jobs))
    && forall i | Live(s, i) :: ExclusionAt(s.jobs, s.supervisors[i].point)
  }

  /** The writes that may make a job active: recovery and the claim. */
  predicate MayWake(a: SupervisorAction) {
    a.RecoverJob? || a.ClaimJob?
  }

  /** The assumption on ticks: a supervisor that recovers or claims a job does so within its lease. */
  predicate Timely(s: State, step: Step) {
    step.BySupervisor? && MayWake(step.act) ==> Live(s, step.supervisor)
  }

  ghost predicate TimelyRun(s: State, steps: seq<Step>)
    requires Legal(s, steps)
    decreases |steps|
  {
    steps != [] ==> Timely(s, steps[0]) && TimelyRun(Next(s, steps[0]), steps[1..])
  }

  lemma ConflictFreeEvolves(before: JobTable, after: JobTable, woken: set<JobId>, ids: set<JobId>)
    requires Evolves(before, after, woken) && ids <= before.Keys && woken <= before.Keys
    requires ConflictFree(before, Active(before) + woken + ids)
    ensures ConflictFree(after, Active(after) + ids)
  {
  }

  lemma QuietKeepsExclusion(before: JobTable, after: JobTable, p: TickPoint)
    requires Evolves(before, after, {})
    requires ConflictFree(before, Active(before)) && ExclusionAt(before, p)
    ensures ConflictFree(after, Active(after)) && ExclusionAt(after, p)
  {
    ConflictFreeEvolves(before, after, {}, {});
    assert Active(before) + {} + {} == Active(before) && Active(after) + {} == Active(after);
    match p
    case Recovering(todo) =>
      assert Active(before) + {} + todo.Keys == Active(before) + todo.Keys;
      ConflictFreeEvolves(before, after, {}, todo.Keys);
    case Selected(_, _, _, job) =>
      if IsBlocked(after, job) {
        var other :| other in after && IsRival(after, job, other);
        assert other in Active(after);
        assert IsRival(before, job, other);
      }
    case _ =>
  }

  // ---- steps ------------------------------------------------------------------------

  /** A supervisor that is live after a step it does not take inside a tick was so before, or starts afresh. */
  lemma OutsideTicks(s: State, step: Step, i: SupervisorId)
    requires Enabled(s, step) && !(step.BySupervisor? && IsTickAction(step.act))
    requires Live(Next(s, step), i)
    ensures Next(s, step).supervisors[i].point == AtReconcile
            || (Live(s, i) && s.supervisors[i] == Next(s, step).supervisors[i])
    ensures Wakes(s, step) == {}
  {
    match step
    case Wait(_) =>
    case ByWorker(w, a) => WorkerFrame(s, w, a);
    case ByWeb(k, a) => WebFrame(s, k, a);
    case BySupervisor(j, a) => LeaseFrame(s, j, a);
  }

  lemma ClaimKeepsExclusion(before: JobTable, after: JobTable, job: JobId)
    requires Evolves(before, after, {job}) && job in before && !IsBlocked(before, job)
    requires ConflictFree(before, Active(before))
    ensures ConflictFree(after, Active(after))
  {
    forall b | b in Active(before) && b != job && ClaimsWorkspace(before[b]) && ClaimsWorkspace(before[job])
      ensures before[b].workspace != before[job].workspace
    {
      assert !IsRival(before, job, b);
    }
    ConflictFreeEvolves(before, after, {job}, {});
    assert Active(after) + {} == Active(after);
  }

  /** The job needs its workspace for itself, and an active job that uses a worktree of it stands in its way all the same. */
  ghost predicate WaitsForWorktree(jobs: JobTable, id: JobId)
    requires id in jobs
  {
    && ClaimsWorkspace(jobs[id])
    && exists other | other in jobs && other != id ::
         && (jobs[other].status == Dispatched || jobs[other].status == Running)
         && jobs[other].workspace == jobs[id].workspace
         && jobs[other].blocking && jobs[other].worktrees && !jobs[other].cancelRequested
  }

  /**
   Main result: what blocking means. A job that may still run is blocked exactly if it would conflict with the active
   jobs, or if it waits for a job in a worktree, with which it would not conflict.
   */
  lemma BlockedIff(jobs: JobTable, id: JobId)
    requires id in jobs && !IsActive(jobs[id]) && !jobs[id].cancelRequested && ConflictFree(jobs, Active(jobs))
    ensures IsBlocked(jobs, id) <==> !ConflictFree(jobs, Active(jobs) + {id}) || WaitsForWorktree(jobs, id)
  {
    if IsBlocked(jobs, id) {
      var other :| other in jobs && IsRival(jobs, id, other);
      assert other in Active(jobs) + {id} && id in Active(jobs) + {id};
    }
    if !ConflictFree(jobs, Active(jobs) + {id}) {
      var a, b :| a in Active(jobs) + {id} && b in Active(jobs) + {id} && a != b && ClaimsWorkspace(jobs[a])
                  && ClaimsWorkspace(jobs[b]) && jobs[a].workspace == jobs[b].workspace;
      assert IsRival(jobs, id, if a == id then b else a);
    }
    if WaitsForWorktree(jobs, id) {
      var other :| other in jobs && IsActive(jobs[other]) && jobs[other].workspace == jobs[id].workspace
                   && jobs[other].blocking && !jobs[other].cancelRequested && other != id;
      assert IsRival(jobs, id, other);
    }
  }

  /** A job in a worktree blocks another one of its workspace, although the two would not conflict. */
  lemma WorktreeBlocks()
    ensures exists jobs: JobTable, id: JobId ::
              && id in jobs && ConflictFree(jobs, Active(jobs) + {id}) && IsBlocked(jobs, id)
  {
    var waiting := NewJob(None, Some(0), true, false, 30, 0, None, 0);
    var jobs := map[0 := waiting.(status := Running, run := RunRunning, worktrees := true), 1 := waiting];
    assert IsRival(jobs, 1, 0);
  }

  lemma RecoveryKeepsExclusion(before: JobTable, after: JobTable, job: JobId, todo: map<JobId, Job>)
    requires Evolves(before, after, {job}) && job in todo && ExclusionAt(before, Recovering(todo))
    ensures ExclusionAt(after, Recovering(todo - {job})) && ConflictFree(after, Active(after))
  {
    var rest := (todo - {job}).Keys;
    assert Active(before) + {job} + rest == Active(before) + todo.Keys;
    ConflictFreeEvolves(before, after, {job}, rest);
  }

  /** Tick actions that wake no job; only CheckCandidate and SnapshotStale learn anything new. */
  lemma QuietTick(s: State, i: SupervisorId, a: SupervisorAction)
    requires ExclusionInv(s) && Live(s, i) && !a.RecoverJob? && !a.ClaimJob?
    requires PointEnabled(s, s.supervisors[i].point, a)
    ensures var t := PointNext(s, i, s.supervisors[i].point, a);
            ConflictFree(t.jobs, Active(t.jobs)) && ExclusionAt(t.jobs, t.supervisors[i].point)
  {
    var t := PointNext(s, i, s.supervisors[i].point, a);
    if a.SnapshotStale? {
      var todo := StaleJobs(s.jobs, a.at);
      assert Active(s.jobs) + todo.Keys == Active(s.jobs);
    } else if !a.CheckCandidate? {
      StepEvolves(s, BySupervisor(i, a));
      QuietKeepsExclusion(s.jobs, t.jobs, AtCleanup);
    }
  }

  lemma ExclusionStepInTick(s: State, i: SupervisorId, a: SupervisorAction)
    requires LeaseInv(s) && ExclusionInv(s) && Live(s, i)
    requires IsTickAction(a) && SupervisorEnabled(s, i, a)
    ensures var t := SupervisorNext(s, i, a);
            ConflictFree(t.jobs, Active(t.jobs)) && TickingAt(t, i) && ExclusionAt(t.jobs, t.supervisors[i].point)
  {
    var p := s.supervisors[i].point;
    var t := PointNext(s, i, p, a);
    TickFrame(s, i, a);
    if a.RecoverJob? {
      StepEvolves(s, BySupervisor(i, a));
      RecoveryKeepsExclusion(s.jobs, t.jobs, a.job, p.todo);
    } else if a.ClaimJob? {
      if IsRunnable(s.jobs[p.job], p.now) {
        StepEvolves(s, BySupervisor(i, a));
        ClaimKeepsExclusion(s.jobs, t.jobs, p.job);
      }
    } else {
      QuietTick(s, i, a);
    }
  }

  /** A step inside a tick changes the point of no other supervisor, and leaves one that is not live as it is. */
  lemma OtherTicks(s: State, i: SupervisorId, a: SupervisorAction, j: SupervisorId)
    requires LeaseInv(s) && SupervisorEnabled(s, i, a) && IsTickAction(a)
    requires Live(SupervisorNext(s, i, a), j)
    ensures Live(s, j) && (Live(s, i) ==> j == i) && (j != i ==> SupervisorNext(s, i, a).supervisors[j] == s.supervisors[j])
  {
    TickFrame(s, i, a);
    if Live(s, i) { OneLive(s, i, j); }
  }

  lemma ExclusionTick(s: State, i: SupervisorId, a: SupervisorAction)
    requires LeaseInv(s) && ExclusionInv(s) && SupervisorEnabled(s, i, a) && IsTickAction(a)
    requires MayWake(a) ==> Live(s, i)
    ensures ExclusionInv(SupervisorNext(s, i, a))
  {
    var t := SupervisorNext(s, i, a);
    if Live(s, i) {
      ExclusionStepInTick(s, i, a);
    } else {
      StepEvolves(s, BySupervisor(i, a));
      QuietKeepsExclusion(s.jobs, t.jobs, AtCleanup);
    }
    forall j | Live(t, j)
      ensures ExclusionAt(t.jobs, t.supervisors[j].point)
    {
      OtherTicks(s, i, a, j);
      if !Live(s, i) { QuietKeepsExclusion(s.jobs, t.jobs, s.supervisors[j].point); }
    }
  }

  lemma ExclusionStep(s: State, step: Step)
    requires LeaseInv(s) && ExclusionInv(s) && Enabled(s, step) && Timely(s, step)
    ensures ExclusionInv(Next(s, step))
  {
    var t := Next(s, step);
    if step.BySupervisor? && IsTickAction(step.act) {
      ExclusionTick(s, step.supervisor, step.act);
    } else {
      StepEvolves(s, step);
      assert Wakes(s, step) == {};
      QuietKeepsExclusion(s.jobs, t.jobs, AtCleanup);
      forall i | Live(t, i)
        ensures ExclusionAt(t.jobs, t.supervisors[i].point)
      {
        OutsideTicks(s, step, i);
        if Live(s, i) && s.supervisors[i] == t.supervisors[i] {
          QuietKeepsExclusion(s.jobs, t.jobs, s.supervisors[i].point);
        }
      }
    }
  }

  lemma {:induction false} ExclusionRun(s: State, steps: seq<Step>)
    requires LeaseInv(s) && ExclusionInv(s) && Legal(s, steps) && TimelyRun(s, steps)
    ensures ExclusionInv(Exec(s, steps))
    decreases |steps|
  {
    if steps != [] {
      LeaseStep(s, steps[0]);
      ExclusionStep(s, steps[0]);
      ExclusionRun(Next(s, steps[0]), steps[1..]);
    }
  }

  /**
   Main result. However supervisors, workers and the web process interleave, as long as recoveries and claims
   are written within the lease: two distinct active jobs that claim their workspace never share it.
   */
  lemma WorkspaceExclusion(s: State, steps: seq<Step>, a: JobId, b: JobId)
    requires Init(s) && Legal(s, steps) && TimelyRun(s, steps)
    requires var jobs := Exec(s, steps).jobs;
             && a in jobs && b in jobs && a != b && IsActive(jobs[a]) && IsActive(jobs[b])
             && ClaimsWorkspace(jobs[a]) && ClaimsWorkspace(jobs[b])
    ensures Exec(s, steps).jobs[a].workspace != Exec(s, steps).jobs[b].workspace
  {
    ExclusionRun(s, steps);
    assert a in Active(Exec(s, steps).jobs) && b in Active(Exec(s, steps).jobs);
  }
}
