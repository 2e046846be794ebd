/** Job and run documents agree when each pair of writes is one step. */
module Agreement {
  import opened Wrappers
  import opened Jobs
  import opened Engine

  predicate Agrees(j: Job) {
    match j.status
    case Queued => j.run == RunQueued
    case Dispatched => j.run == RunQueued || j.run == RunRetrying
    case Running => j.run == RunRunning
    case Retrying => j.run == RunRetrying
    case Completed => j.run == RunCompleted
    case Failed => j.run == RunFailed || j.run == RunTimeout
    case Canceled => j.run == RunKilled
  }

  ghost predicate AgreementInv(s: State) {
    && (forall id | id in s.jobs :: Agrees(s.jobs[id]))
    && (forall w | w in s.workers && s.workers[w].Finalizing? ::
          s.workers[w].fallback == RunCompleted || s.workers[w].fallback == RunFailed)
  }

  lemma RecoverAgrees(doc: Job, seen: Job, exit: Option<ExitMarker>, alive: bool, at: int, now: int, clears: bool)
    ensures Agrees(Recover(doc, seen, exit, alive, at, now, clears))
  {
  }

  lemma FinalizeAgrees(doc: Job, seen: Job, outcome: RunStatus, now: int, clears: bool)
    requires outcome == RunCompleted || outcome == RunFailed || outcome == RunTimeout || outcome == RunKilled
    ensures Agrees(Finalize(doc, seen, outcome, now, clears))
  {
  }

  lemma TickAgrees(s: State, p: TickPoint, a: SupervisorAction)
    requires AgreementInv(s) && PointEnabled(s, p, a)
    ensures TickWrite(s, p, a).Put? ==> Agrees(TickWrite(s, p, a).doc)
  {
    match a
    case RecoverJob(job, exit, alive, at, clears) =>
      RecoverAgrees(s.jobs[job], p.todo[job], exit, alive, at, s.clock, clears);
    case _ =>
  }

  lemma WorkerAgrees(s: State, w: WorkerId, a: WorkerAction)
    requires AgreementInv(s) && WorkerEnabled(s, w, a)
    ensures WorkerWrite(s, w, a).Put? ==> Agrees(WorkerWrite(s, w, a).doc)
  {
    var me := s.workers[w];
    match a
    case EndFinalize(clears) =>
      FinalizeAgrees(s.jobs[me.job], me.seen, Outcome(me.killedBy, me.fallback), s.clock, clears);
    case _ =>
  }

  lemma WriteAgrees(s: State, step: Step)
    requires AgreementInv(s) && Enabled(s, step)
    ensures WriteOf(s, step).Put? ==> Agrees(WriteOf(s, step).doc)
  {
    match step
    case Wait(_) =>
    case BySupervisor(i, a) => if IsTickAction(a) { TickAgrees(s, s.supervisors[i].point, a); }
    case ByWorker(w, a) => WorkerAgrees(s, w, a);
    case ByWeb(k, a) =>
  }

  lemma FallbackIsFinal(s: State, step: Step, w: WorkerId)
    requires AgreementInv(s) && Enabled(s, step)
    requires w in Next(s, step).workers && Next(s, step).workers[w].Finalizing?
    ensures Next(s, step).workers[w].fallback == RunCompleted || Next(s, step).workers[w].fallback == RunFailed
  {
    match step
    case Wait(_) =>
    case ByWorker(v, a) =>
      WorkerFrame(s, v, a);
      if v == w { assert a.BeginFinalize? || a.BeatHeart? || a.SeeCancel?; }
    case ByWeb(k, a) => WebFrame(s, k, a);
    case BySupervisor(j, a) => if IsTickAction(a) { TickFrame(s, j, a); } else { LeaseFrame(s, j, a); }
  }

  lemma AgreementStep(s: State, step: Step)
    requires AgreementInv(s) && Enabled(s, step)
    ensures AgreementInv(Next(s, step))
  {
    OneWrite(s, step);
    WriteAgrees(s, step);
    forall w | w in Next(s, step).workers && Next(s, step).workers[w].Finalizing?
      ensures Next(s, step).workers[w].fallback == RunCompleted || Next(s, step).workers[w].fallback == RunFailed
    {
      FallbackIsFinal(s, step, w);
    }
  }

  lemma {:induction false} AgreementRun(s: State, steps: seq<Step>)
    requires AgreementInv(s) && Legal(s, steps)
    ensures AgreementInv(Exec(s, steps))
    decreases |steps|
  {
    if steps != [] {
      AgreementStep(s, steps[0]);
      AgreementRun(Next(s, steps[0]), steps[1..]);
    }
  }

  /** Main result: in every reachable state each job agrees with its run. */
  lemma JobsAndRunsAgree(s: State, steps: seq<Step>, id: JobId)
    requires Init(s) && Legal(s, steps) && id in Exec(s, steps).jobs
    ensures Agrees(Exec(s, steps).jobs[id])
  {
    AgreementRun(s, steps);
  }
}
