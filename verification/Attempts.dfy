/** Attempts stay within maxAttempts exactly as long as every queued retry can still be afforded. */
module Attempts {
  import opened Wrappers
  import opened Jobs
  import opened Engine
  import opened Cancellation

  /** A job that may still be started has an attempt left. */
  ghost predicate WithinBudget(j: Job) {
    && j.attemptCount <= j.maxAttempts
    && (IsWaiting(j) || j.status == Dispatched ==> j.attemptCount < j.maxAttempts)
  }

  ghost predicate BudgetInv(s: State) {
    forall id | id in s.jobs :: WithinBudget(s.jobs[id])
  }

  /** Earlier reads of a job agree with its document on maxAttempts and never count more attempts. */
  ghost predicate ReadsInv(s: State) {
    && (forall i, id | TickingAt(s, i) && s.supervisors[i].point.Recovering? && id in s.supervisors[i].point.todo ::
          id in s.jobs && EarlierRead(s.supervisors[i].point.todo[id], s.jobs[id]))
    && (forall w | w in s.workers && s.workers[w].Finalizing? ::
          s.workers[w].job in s.jobs && EarlierRead(s.workers[w].seen, s.jobs[s.workers[w].job]))
  }

  predicate EarlierRead(seen: Job, doc: Job) {
    seen.maxAttempts == doc.maxAttempts && seen.attemptCount <= doc.attemptCount
  }

  /** A retry decided from an earlier read is affordable if shouldRetryJob still says so of the document it is written to. */
  predicate RecoveryAffordable(seen: Job, doc: Job, exit: Option<ExitMarker>, alive: bool, at: int) {
    RecoveryRetries(seen, exit, alive, at) ==> ShouldRetry(doc)
  }

  predicate FinalizeAffordable(me: Worker, doc: Job)
    requires me.Finalizing?
  {
    FinalizeRetries(me.seen, Outcome(me.killedBy, me.fallback)) ==> ShouldRetry(doc)
  }

  /** A step that queues a retry from an earlier read does so while an attempt is left. */
  ghost predicate RetryAffordable(s: State, step: Step)
    requires Enabled(s, step)
  {
    match step
    case BySupervisor(i, RecoverJob(job, exit, alive, at, _)) =>
      RecoveryAffordable(s.supervisors[i].point.todo[job], s.jobs[job], exit, alive, at)
    case ByWorker(w, EndFinalize(_)) => FinalizeAffordable(s.workers[w], s.jobs[s.workers[w].job])
    case _ => true
  }

  ghost predicate AffordableRun(s: State, steps: seq<Step>)
    requires Legal(s, steps)
    decreases |steps|
  {
    steps != [] ==> RetryAffordable(s, steps[0]) && AffordableRun(Next(s, steps[0]), steps[1..])
  }

  lemma ReadsStep(s: State, step: Step)
    requires ReadsInv(s) && Enabled(s, step)
    ensures ReadsInv(Next(s, step))
  {
    var t := Next(s, step);
    StepJobs(s, step);
    forall i, id | TickingAt(t, i) && t.supervisors[i].point.Recovering? && id in t.supervisors[i].point.todo
      ensures id in t.jobs && EarlierRead(t.supervisors[i].point.todo[id], t.jobs[id])
    {
      TodoOrigin(s, step, i, id);
      assert JobStep(s.jobs[id], t.jobs[id]);
    }
    forall w | w in t.workers && t.workers[w].Finalizing?
      ensures t.workers[w].job in t.jobs && EarlierRead(t.workers[w].seen, t.jobs[t.workers[w].job])
    {
      SeenOrigin(s, step, w);
      assert JobStep(s.jobs[t.workers[w].job], t.jobs[t.workers[w].job]);
    }
  }

  /** A snapshot entry was there before the step, or was read by it. */
  lemma TodoOrigin(s: State, step: Step, i: SupervisorId, id: JobId)
    requires Enabled(s, step)
    requires var t := Next(s, step);
             TickingAt(t, i) && t.supervisors[i].point.Recovering? && id in t.supervisors[i].point.todo
    ensures var seen := Next(s, step).supervisors[i].point.todo[id];
            || (&& TickingAt(s, i) && s.supervisors[i].point.Recovering?
                && id in s.supervisors[i].point.todo && s.supervisors[i].point.todo[id] == seen)
            || (id in s.jobs && seen == s.jobs[id])
  {
    match step
    case Wait(_) =>
    case ByWorker(w, a) => WorkerFrame(s, w, a);
    case ByWeb(k, a) => WebFrame(s, k, a);
    case BySupervisor(j, a) =>
      if !IsTickAction(a) {
        LeaseFrame(s, j, a);
      } else {
        TickFrame(s, j, a);
        if i == j {
          assert a.SnapshotStale? || a.RecoverJob?;
        }
      }
  }

  lemma SeenOrigin(s: State, step: Step, w: WorkerId)
    requires Enabled(s, step)
    requires w in Next(s, step).workers && Next(s, step).workers[w].Finalizing?
    ensures var me := Next(s, step).workers[w];
            || (w in s.workers && s.workers[w].Finalizing? && s.workers[w].job == me.job && s.workers[w].seen == me.seen)
            || (me.job in s.jobs && me.seen == s.jobs[me.job])
  {
    match step
    case Wait(_) =>
    case ByWorker(v, a) =>
      WorkerFrame(s, v, a);
      if v == w { assert a.BeginFinalize? || a.BeatHeart? || a.SeeCancel?; }
    case ByWeb(k, a) => WebFrame(s, k, a);
    case BySupervisor(j, a) => if IsTickAction(a) { TickFrame(s, j, a); } else { LeaseFrame(s, j, a); }
  }

  /** Main result, one step: the budget survives a step exactly when the retry it queues is affordable. */
  lemma BudgetStep(s: State, step: Step)
    requires BudgetInv(s) && ReadsInv(s) && Enabled(s, step)
    ensures BudgetInv(Next(s, step)) <==> RetryAffordable(s, step)
  {
    OneWrite(s, step);
    WriteBudget(s, step);
    match WriteOf(s, step)
    case NoWrite =>
    case Put(id, doc) => assert id in Next(s, step).jobs && Next(s, step).jobs[id] == doc;
  }

  lemma RecoverBudget(doc: Job, seen: Job, exit: Option<ExitMarker>, alive: bool, at: int, now: int, clears: bool)
    requires WithinBudget(doc) && EarlierRead(seen, doc)
    ensures WithinBudget(Recover(doc, seen, exit, alive, at, now, clears)) <==> RecoveryAffordable(seen, doc, exit, alive, at)
  {
  }

  lemma FinalizeBudget(doc: Job, me: Worker, now: int, clears: bool)
    requires WithinBudget(doc) && me.Finalizing? && EarlierRead(me.seen, doc)
    ensures WithinBudget(Finalize(doc, me.seen, Outcome(me.killedBy, me.fallback), now, clears)) <==> FinalizeAffordable(me, doc)
  {
  }

  lemma TickBudget(s: State, i: SupervisorId, a: SupervisorAction)
    requires BudgetInv(s) && ReadsInv(s) && TickingAt(s, i) && PointEnabled(s, s.supervisors[i].point, a)
    ensures var w := TickWrite(s, s.supervisors[i].point, a);
            (w.Put? ==> WithinBudget(w.doc)) <==> RetryAffordable(s, BySupervisor(i, a))
  {
    var p := s.supervisors[i].point;
    match a
    case RecoverJob(job, exit, alive, at, clears) =>
      RecoverBudget(s.jobs[job], p.todo[job], exit, alive, at, s.clock, clears);
    case RecordSpawn => assert WithinBudget(s.jobs[p.job]);
    case ClaimJob => assert WithinBudget(s.jobs[p.job]);
    case SpawnFails => assert WithinBudget(s.jobs[p.job]);
    case _ =>
  }

  lemma WorkerBudget(s: State, w: WorkerId, a: WorkerAction)
    requires BudgetInv(s) && ReadsInv(s) && WorkerEnabled(s, w, a)
    ensures var x := WorkerWrite(s, w, a);
            (x.Put? ==> WithinBudget(x.doc)) <==> RetryAffordable(s, ByWorker(w, a))
  {
    var me := s.workers[w];
    if a.EndFinalize? {
      FinalizeBudget(s.jobs[me.job], me, s.clock, a.clears);
    } else if !me.Gone? && me.job in s.jobs {
      assert WithinBudget(s.jobs[me.job]);
    }
  }

  lemma WriteBudget(s: State, step: Step)
    requires BudgetInv(s) && ReadsInv(s) && Enabled(s, step)
    ensures (WriteOf(s, step).Put? ==> WithinBudget(WriteOf(s, step).doc)) <==> RetryAffordable(s, step)
  {
    match step
    case Wait(_) =>
    case BySupervisor(i, a) => if IsTickAction(a) { TickBudget(s, i, a); }
    case ByWorker(w, a) => WorkerBudget(s, w, a);
    case ByWeb(k, a) =>
  }

  lemma {:induction false} BudgetRun(s: State, steps: seq<Step>)
    requires BudgetInv(s) && ReadsInv(s) && Legal(s, steps) && AffordableRun(s, steps)
    ensures BudgetInv(Exec(s, steps))
    decreases |steps|
  {
    if steps != [] {
      BudgetStep(s, steps[0]);
      ReadsStep(s, steps[0]);
      BudgetRun(Next(s, steps[0]), steps[1..]);
    }
  }

  /** The state and every later one of the run keep all jobs within their budget. */
  ghost predicate StaysWithinBudget(s: State, steps: seq<Step>)
    requires Legal(s, steps)
    decreases |steps|
  {
    BudgetInv(s) && (steps != [] ==> StaysWithinBudget(Next(s, steps[0]), steps[1..]))
  }

  /** Main result, whole runs: maxAttempts is kept in every state exactly if every queued retry is affordable. */
  lemma {:induction false} WithinBudgetIffAffordable(s: State, steps: seq<Step>)
    requires BudgetInv(s) && ReadsInv(s) && Legal(s, steps)
    ensures StaysWithinBudget(s, steps) <==> AffordableRun(s, steps)
    decreases |steps|
  {
    if steps != [] {
      BudgetStep(s, steps[0]);
      ReadsStep(s, steps[0]);
      if RetryAffordable(s, steps[0]) {
        WithinBudgetIffAffordable(Next(s, steps[0]), steps[1..]);
      }
    }
  }

  /** No reachable state of an affordable run exceeds maxAttempts. */
  lemma AttemptsWithinMax(s: State, steps: seq<Step>, id: JobId)
    requires Init(s) && Legal(s, steps) && AffordableRun(s, steps) && id in Exec(s, steps).jobs
    ensures WithinBudget(Exec(s, steps).jobs[id])
  {
    BudgetRun(s, steps);
  }

  /** No attempt starts between the read and the write of a recovery or a finalize. */
  predicate FreshRead(s: State, step: Step)
    requires Enabled(s, step)
  {
    match step
    case BySupervisor(i, RecoverJob(job, _, _, _, _)) =>
      s.supervisors[i].point.todo[job].attemptCount == s.jobs[job].attemptCount
    case ByWorker(w, EndFinalize(_)) => s.workers[w].seen.attemptCount == s.jobs[s.workers[w].job].attemptCount
    case _ => true
  }

  ghost predicate FreshRun(s: State, steps: seq<Step>)
    requires Legal(s, steps)
    decreases |steps|
  {
    steps != [] ==> FreshRead(s, steps[0]) && FreshRun(Next(s, steps[0]), steps[1..])
  }

  lemma FreshReadIsAffordable(s: State, step: Step)
    requires ReadsInv(s) && Enabled(s, step) && FreshRead(s, step)
    ensures RetryAffordable(s, step)
  {
    match step
    case BySupervisor(i, RecoverJob(job, _, _, _, _)) => assert EarlierRead(s.supervisors[i].point.todo[job], s.jobs[job]);
    case ByWorker(w, EndFinalize(_)) => assert EarlierRead(s.workers[w].seen, s.jobs[s.workers[w].job]);
    case _ =>
  }

  lemma {:induction false} FreshRunIsAffordable(s: State, steps: seq<Step>)
    requires ReadsInv(s) && Legal(s, steps) && FreshRun(s, steps)
    ensures AffordableRun(s, steps)
    decreases |steps|
  {
    if steps != [] {
      FreshReadIsAffordable(s, steps[0]);
      ReadsStep(s, steps[0]);
      FreshRunIsAffordable(Next(s, steps[0]), steps[1..]);
    }
  }

  /** Main result: with each recovery and each finalize as one action, maxAttempts is never exceeded. */
  lemma ActionsKeepAttemptsWithinMax(s: State, steps: seq<Step>, id: JobId)
    requires Init(s) && Legal(s, steps) && FreshRun(s, steps) && id in Exec(s, steps).jobs
    ensures WithinBudget(Exec(s, steps).jobs[id])
  {
    FreshRunIsAffordable(s, steps);
    AttemptsWithinMax(s, steps, id);
  }
}
