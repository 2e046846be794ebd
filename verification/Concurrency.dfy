/** The concurrency cap: dispatching never exceeds it, whatever happens in between. */
module Concurrency {
  import opened Wrappers
  import opened Jobs
  import opened Engine
  import opened LeaseSafety
  import opened Exclusion

  lemma SubsetSize<T>(a: set<T>, b: set<T>)
    requires a <= b
    ensures |a| <= |b|
  {
    assert b == a + (b - a);
  }

  /** The live supervisor's own count is never below the true one. */
  ghost predicate CapAt(jobs: JobTable, p: TickPoint, bound: int) {
    match p
    case Recovering(todo) => |Active(jobs) + todo.Keys| <= bound
    case Dispatching(cap, count) => |Active(jobs)| <= count && cap <= bound
    case Scanning(cap, count, _, _) => |Active(jobs)| <= count < cap <= bound
    case Selected(cap, count, _, _) => |Active(jobs)| <= count < cap <= bound
    case Spawning(cap, count, _, job) => |Active(jobs) - {job}| <= count < cap <= bound
    case Recording(cap, count, _, job) => |Active(jobs) - {job}| <= count < cap <= bound
    case _ => true
  }

  ghost predicate CapInv(s: State, bound: int) {
    && |Active(s.jobs)| <= bound
    && forall i | Live(s, i) :: CapAt(s.jobs, s.supervisors[i].point, bound)
  }

  /** Every cap read from the settings during the run is at most `bound`. */
  predicate CapsWithin(steps: seq<Step>, bound: int) {
    forall k | 0 <= k < |steps| :: steps[k].BySupervisor? && steps[k].act.CountActive? ==> steps[k].act.cap <= bound
  }

  lemma QuietKeepsCap(before: JobTable, after: JobTable, p: TickPoint, bound: int)
    requires Evolves(before, after, {})
    requires |Active(before)| <= bound && CapAt(before, p, bound)
    ensures |Active(after)| <= bound && CapAt(after, p, bound)
  {
    SubsetSize(Active(after), Active(before));
    if p.Recovering? {
      SubsetSize(Active(after) + p.todo.Keys, Active(before) + p.todo.Keys);
    } else if p.Spawning? || p.Recording? {
      SubsetSize(Active(after) - {p.job}, Active(before) - {p.job});
    }
  }

  lemma RecoveryKeepsCap(before: JobTable, after: JobTable, job: JobId, todo: map<JobId, Job>, bound: int)
    requires Evolves(before, after, {job}) && job in todo && CapAt(before, Recovering(todo), bound)
    ensures |Active(after)| <= bound && CapAt(after, Recovering(todo - {job}), bound)
  {
    SubsetSize(Active(after), Active(before) + todo.Keys);
    SubsetSize(Active(after) + (todo - {job}).Keys, Active(before) + todo.Keys);
  }

  lemma ClaimKeepsCap(before: JobTable, after: JobTable, job: JobId)
    requires Evolves(before, after, {job})
    ensures |Active(after) - {job}| <= |Active(before)|
    ensures |Active(after)| <= |Active(before)| + 1
  {
    SubsetSize(Active(after) - {job}, Active(before));
    SubsetSize(Active(after), Active(before) + {job});
  }

  /** The slot of the spawned job is counted, or given back when its worker cannot be spawned. */
  lemma SpawnKeepsCap(before: JobTable, job: JobId, now: int)
    requires job in before
    ensures Active(before[job := FailToLaunch(before[job])]) == Active(before) - {job}
    ensures Active(before[job := RecordWorker(before[job], now)]) == Active(before)
    ensures |Active(before)| <= |Active(before) - {job}| + 1
  {
    SubsetSize(Active(before), Active(before) - {job} + {job});
  }

  // ---- one lemma per group of tick actions ------------------------------------------

  lemma CapWhileReconciling(s: State, i: SupervisorId, a: SupervisorAction, bound: int)
    requires CapInv(s, bound) && Live(s, i)
    requires a.SnapshotStale? || a.EndReconcile? || a.EndDispatch?
    requires PointEnabled(s, s.supervisors[i].point, a)
    ensures var t := PointNext(s, i, s.supervisors[i].point, a);
            |Active(t.jobs)| <= bound && CapAt(t.jobs, t.supervisors[i].point, bound)
  {
    if a.SnapshotStale? {
      assert Active(s.jobs) + StaleJobs(s.jobs, a.at).Keys == Active(s.jobs);
    }
  }

  lemma CapWhileRecovering(s: State, i: SupervisorId, a: SupervisorAction, bound: int)
    requires CapInv(s, bound) && Live(s, i)
    requires a.RecoverJob?
    requires PointEnabled(s, s.supervisors[i].point, a)
    ensures var t := PointNext(s, i, s.supervisors[i].point, a);
            |Active(t.jobs)| <= bound && CapAt(t.jobs, t.supervisors[i].point, bound)
  {
    StepEvolves(s, BySupervisor(i, a));
    RecoveryKeepsCap(s.jobs, PointNext(s, i, s.supervisors[i].point, a).jobs, a.job, s.supervisors[i].point.todo, bound);
  }

  lemma CapWhileFinding(s: State, i: SupervisorId, a: SupervisorAction, bound: int)
    requires CapInv(s, bound) && Live(s, i)
    requires a.FindCandidates? || a.SpawnWorker? || (a.CountActive? && a.cap <= bound)
    requires PointEnabled(s, s.supervisors[i].point, a)
    ensures var t := PointNext(s, i, s.supervisors[i].point, a);
            |Active(t.jobs)| <= bound && CapAt(t.jobs, t.supervisors[i].point, bound)
  {
    assert CapAt(s.jobs, s.supervisors[i].point, bound);
  }

  lemma CapWhileChecking(s: State, i: SupervisorId, a: SupervisorAction, bound: int)
    requires CapInv(s, bound) && Live(s, i)
    requires a.CheckCandidate?
    requires PointEnabled(s, s.supervisors[i].point, a)
    ensures var t := PointNext(s, i, s.supervisors[i].point, a);
            |Active(t.jobs)| <= bound && CapAt(t.jobs, t.supervisors[i].point, bound)
  {
    assert CapAt(s.jobs, s.supervisors[i].point, bound);
  }

  lemma CapWhileClaiming(s: State, i: SupervisorId, a: SupervisorAction, bound: int)
    requires CapInv(s, bound) && Live(s, i)
    requires a.ClaimJob?
    requires PointEnabled(s, s.supervisors[i].point, a)
    ensures var t := PointNext(s, i, s.supervisors[i].point, a);
            |Active(t.jobs)| <= bound && CapAt(t.jobs, t.supervisors[i].point, bound)
  {
    var p := s.supervisors[i].point;
    if IsRunnable(s.jobs[p.job], p.now) {
      StepEvolves(s, BySupervisor(i, a));
      ClaimKeepsCap(s.jobs, PointNext(s, i, p, a).jobs, p.job);
    }
  }

  lemma CapWhileSpawning(s: State, i: SupervisorId, a: SupervisorAction, bound: int)
    requires CapInv(s, bound) && Live(s, i)
    requires a.RecordSpawn? || a.SpawnFails?
    requires PointEnabled(s, s.supervisors[i].point, a)
    ensures var t := PointNext(s, i, s.supervisors[i].point, a);
            |Active(t.jobs)| <= bound && CapAt(t.jobs, t.supervisors[i].point, bound)
  {
    SpawnKeepsCap(s.jobs, s.supervisors[i].point.job, s.supervisors[i].point.now);
  }

  lemma CapInTick(s: State, i: SupervisorId, a: SupervisorAction, bound: int)
    requires CapInv(s, bound) && Live(s, i) && SupervisorEnabled(s, i, a) && IsTickAction(a)
    requires a.CountActive? ==> a.cap <= bound
    ensures var t := SupervisorNext(s, i, a);
            |Active(t.jobs)| <= bound && TickingAt(t, i) && CapAt(t.jobs, t.supervisors[i].point, bound)
  {
    TickFrame(s, i, a);
    match a {
      case RecoverJob(_, _, _, _, _) => CapWhileRecovering(s, i, a, bound);
      case FindCandidates(_, _) => CapWhileFinding(s, i, a, bound);
      case CheckCandidate => CapWhileChecking(s, i, a, bound);
      case SpawnWorker(_) => CapWhileFinding(s, i, a, bound);
      case CountActive(_) => CapWhileFinding(s, i, a, bound);
      case ClaimJob => CapWhileClaiming(s, i, a, bound);
      case RecordSpawn => CapWhileSpawning(s, i, a, bound);
      case SpawnFails => CapWhileSpawning(s, i, a, bound);
      case _ => CapWhileReconciling(s, i, a, bound);
    }
  }

  lemma CapTick(s: State, i: SupervisorId, a: SupervisorAction, bound: int)
    requires LeaseInv(s) && CapInv(s, bound) && SupervisorEnabled(s, i, a) && IsTickAction(a)
    requires (MayWake(a) ==> Live(s, i)) && (a.CountActive? ==> a.cap <= bound)
    ensures CapInv(SupervisorNext(s, i, a), bound)
  {
    var t := SupervisorNext(s, i, a);
    if Live(s, i) {
      CapInTick(s, i, a, bound);
    } else {
      StepEvolves(s, BySupervisor(i, a));
      QuietKeepsCap(s.jobs, t.jobs, AtCleanup, bound);
    }
    forall j | Live(t, j)
      ensures CapAt(t.jobs, t.supervisors[j].point, bound)
    {
      OtherTicks(s, i, a, j);
      if !Live(s, i) { QuietKeepsCap(s.jobs, t.jobs, s.supervisors[j].point, bound); }
    }
  }

  lemma CapStep(s: State, step: Step, bound: int)
    requires LeaseInv(s) && CapInv(s, bound) && Enabled(s, step) && Timely(s, step)
    requires CapsWithin([step], bound)
    ensures CapInv(Next(s, step), bound)
  {
    var t := Next(s, step);
    if step.BySupervisor? && IsTickAction(step.act) {
      assert [step][0] == step;
      CapTick(s, step.supervisor, step.act, bound);
    } else {
      StepEvolves(s, step);
      assert Wakes(s, step) == {};
      QuietKeepsCap(s.jobs, t.jobs, AtCleanup, bound);
      forall i | Live(t, i)
        ensures CapAt(t.jobs, t.supervisors[i].point, bound)
      {
        OutsideTicks(s, step, i);
        if Live(s, i) && s.supervisors[i] == t.supervisors[i] {
          QuietKeepsCap(s.jobs, t.jobs, s.supervisors[i].point, bound);
        }
      }
    }
  }

  lemma {:induction false} CapRun(s: State, steps: seq<Step>, bound: int)
    requires LeaseInv(s) && CapInv(s, bound) && Legal(s, steps) && TimelyRun(s, steps) && CapsWithin(steps, bound)
    ensures CapInv(Exec(s, steps), bound)
    decreases |steps|
  {
    if steps != [] {
      LeaseStep(s, steps[0]);
      CapStep(s, steps[0], bound);
      CapRun(Next(s, steps[0]), steps[1..], bound);
    }
  }

  /** Main result: with caps of at most `bound`, no reachable state has more than `bound` active jobs. */
  lemma ActiveJobsWithinCap(s: State, steps: seq<Step>, bound: nat)
    requires Init(s) && Legal(s, steps) && TimelyRun(s, steps) && CapsWithin(steps, bound)
    ensures |Active(Exec(s, steps).jobs)| <= bound
    ensures forall i | Live(Exec(s, steps), i) :: CapAt(Exec(s, steps).jobs, Exec(s, steps).supervisors[i].point, bound)
  {
    assert Active(s.jobs) == {};
    CapRun(s, steps, bound);
  }

  /**
   One pass: after the supervisor has read cap and count, the number of active jobs stays within
   the larger of the two, even when the count was already over the cap.
   */
  lemma PassWithinCapOrFirstCount(s: State, i: SupervisorId, cap: int, count: int, steps: seq<Step>)
    requires LeaseInv(s) && Live(s, i)
    requires s.supervisors[i].point == Dispatching(cap, count) && count == |Active(s.jobs)|
    requires Legal(s, steps) && TimelyRun(s, steps) && CapsWithin(steps, if cap < count then count else cap)
    ensures |Active(Exec(s, steps).jobs)| <= if cap < count then count else cap
  {
    forall j | Live(s, j)
      ensures j == i
    {
      OneLive(s, i, j);
    }
    CapRun(s, steps, if cap < count then count else cap);
  }
}
