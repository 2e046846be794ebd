/** Cancellation: no dispatch after it, and at most the attempt already handed to a worker. */
module Cancellation {
  import opened Wrappers
  import opened Jobs
  import opened Engine

  /** Attempts started, plus the one that a dispatched job still owes. */
  function Committed(j: Job): nat {
    j.attemptCount + if j.status == Dispatched then 1 else 0
  }

  ghost predicate CountsInv(s: State) {
    forall id | id in s.jobs :: Committed(s.jobs[id]) <= s.jobs[id].dispatchCount
  }

  /** How one step may change one document. */
  ghost predicate JobStep(old_: Job, new_: Job) {
    && old_.attemptCount <= new_.attemptCount && old_.dispatchCount <= new_.dispatchCount
    && new_.maxAttempts == old_.maxAttempts
    && (old_.cancelRequested ==> new_.cancelRequested)
    && ((Committed(new_) <= Committed(old_) && new_.dispatchCount == old_.dispatchCount)
        || (&& !old_.cancelRequested && IsWaiting(old_)
            && Committed(new_) == Committed(old_) + 1 && new_.dispatchCount == old_.dispatchCount + 1))
    && (new_.attemptCount == old_.attemptCount
        || (old_.status == Dispatched && new_.attemptCount == old_.attemptCount + 1 && new_.status == Running))
  }

  ghost predicate JobsStep(before: JobTable, after: JobTable) {
    && before.Keys <= after.Keys
    && (forall id | id in before :: JobStep(before[id], after[id]))
    && (forall id | id in after && id !in before :: Committed(after[id]) == 0)
  }

  lemma StepJobs(s: State, step: Step)
    requires Enabled(s, step)
    ensures JobsStep(s.jobs, Next(s, step).jobs)
  {
    OneWrite(s, step);
    match WriteOf(s, step)
    case NoWrite =>
    case Put(id, doc) => PutStep(s, step);
  }

  /** What a write may make of the table, document by document. */
  ghost predicate WriteStep(jobs: JobTable, w: JobWrite) {
    w.Put? ==> if w.id in jobs then JobStep(jobs[w.id], w.doc) else Committed(w.doc) == 0
  }

  lemma TickWriteStep(s: State, p: TickPoint, a: SupervisorAction)
    requires PointEnabled(s, p, a)
    ensures WriteStep(s.jobs, TickWrite(s, p, a))
  {
  }

  lemma WorkerWriteStep(s: State, w: WorkerId, a: WorkerAction)
    requires WorkerEnabled(s, w, a)
    ensures WriteStep(s.jobs, WorkerWrite(s, w, a))
  {
  }

  lemma PutStep(s: State, step: Step)
    requires Enabled(s, step)
    ensures WriteStep(s.jobs, WriteOf(s, step))
  {
    match step
    case Wait(_) =>
    case BySupervisor(i, a) => if IsTickAction(a) { TickWriteStep(s, s.supervisors[i].point, a); }
    case ByWorker(w, a) => WorkerWriteStep(s, w, a);
    case ByWeb(k, a) =>
  }

  lemma {:induction false} CountsRun(s: State, steps: seq<Step>)
    requires CountsInv(s) && Legal(s, steps)
    ensures CountsInv(Exec(s, steps))
    decreases |steps|
  {
    if steps != [] {
      StepJobs(s, steps[0]);
      CountsRun(Next(s, steps[0]), steps[1..]);
    }
  }

  /** Main result: attempts never outnumber dispatches, with any number of supervisors. */
  lemma AttemptsNeverExceedDispatches(s: State, steps: seq<Step>, id: JobId)
    requires Init(s) && Legal(s, steps) && id in Exec(s, steps).jobs
    ensures Exec(s, steps).jobs[id].attemptCount <= Exec(s, steps).jobs[id].dispatchCount
  {
    CountsRun(s, steps);
  }

  /**
   Main result: once cancellation is requested the job is never dispatched again, and at most one
   more attempt starts, only if the job was dispatched at that moment. Holds from every state.
   */
  lemma {:induction false} CancellationIsFinal(s: State, steps: seq<Step>, id: JobId)
    requires Legal(s, steps) && id in s.jobs && s.jobs[id].cancelRequested
    ensures id in Exec(s, steps).jobs
    ensures var now, then_ := s.jobs[id], Exec(s, steps).jobs[id];
            && then_.cancelRequested
            && then_.dispatchCount == now.dispatchCount
            && then_.attemptCount <= now.attemptCount + (if now.status == Dispatched then 1 else 0)
            && (then_.status == Dispatched ==> now.status == Dispatched && then_.attemptCount == now.attemptCount)
    decreases |steps|
  {
    if steps != [] {
      StepJobs(s, steps[0]);
      var t := Next(s, steps[0]);
      assert JobStep(s.jobs[id], t.jobs[id]);
      CancellationIsFinal(t, steps[1..], id);
    }
  }
}
