/**
 The AI Runner as a protocol: supervisors, workers and the web process take turns, and
 each database call is one step. Every actor keeps what it read earlier, so later writes
 may rest on stale reads. Supervisor processes compete for one lease document.
 */
module Engine {
  import opened Wrappers
  import opened Jobs

  type SupervisorId = nat
  type WorkerId = nat
  type RequestId = nat

  datatype Lease = Lease(owner: SupervisorId, expiresAt: int)

  /** A successful acquireLease: who got the lease and the clock reading it was computed from. */
  datatype Grant = Grant(owner: SupervisorId, at: int)

  /** Where a supervisor stands inside one tick, with the local variables it holds there. */
  datatype TickPoint =
    | AtReconcile
    | Recovering(todo: map<JobId, Job>)
    | AtEnqueue
    | Dispatching(cap: int, activeCount: int)
    | Scanning(cap: int, activeCount: int, now: int, found: seq<JobId>)
    | Selected(cap: int, activeCount: int, now: int, job: JobId)
    | Spawning(cap: int, activeCount: int, now: int, job: JobId)
    | Recording(cap: int, activeCount: int, now: int, job: JobId)
    | AtCleanup

  datatype Supervisor =
    | Asleep
    | Acquiring(now: int)
    | Creating(now: int)
    | Ticking(grantedAt: int, point: TickPoint)
    | Exited

  datatype KillReason = NotKilled | ByTimeout | ByUser

  datatype Worker =
    | Starting(job: JobId)
    | Executing(job: JobId, killedBy: KillReason)
    | Finalizing(job: JobId, killedBy: KillReason, fallback: RunStatus, seen: Job)
    | Gone

  datatype KillRequest = RunRead(job: JobId) | JobRead(job: JobId, seen: JobStatus) | KillDone

  datatype State = State(
    clock: int,
    lease: Option<Lease>,
    supervisors: map<SupervisorId, Supervisor>,
    workers: map<WorkerId, Worker>,
    kills: map<RequestId, KillRequest>,
    jobs: JobTable,
    grants: seq<Grant>)

  datatype SupervisorAction =
    | Boot
    | ReadClock
    | UpdateLease
    | CreateLease
    | EndTick
    | Crash
    | SnapshotStale(at: int)
    | RecoverJob(job: JobId, exit: Option<ExitMarker>, alive: bool, at: int, clears: bool)
    | EndReconcile
    | CountActive(cap: int)
    | FindCandidates(at: int, candidates: seq<JobId>)
    | CheckCandidate
    | ClaimJob
    | SpawnWorker(worker: WorkerId)
    | RecordSpawn
    | SpawnFails
    | EndDispatch

  datatype WorkerAction =
    | StartJob
    | BeatHeart
    | SeeCancel
    | TimeOut
    | LaunchFails
    | BeginFinalize(fallback: RunStatus)
    | EndFinalize(clears: bool)
    | Die

  datatype WebAction = Enqueue(id: JobId, job: Job) | ReadRun(target: JobId) | ReadJob | WriteKill

  datatype Step =
    | Wait(until: int)
    | BySupervisor(supervisor: SupervisorId, act: SupervisorAction)
    | ByWorker(worker: WorkerId, deed: WorkerAction)
    | ByWeb(request: RequestId, deal: WebAction)

  predicate Init(s: State) {
    s.lease.None? && s.supervisors == map[] && s.workers == map[] && s.kills == map[] && s.jobs == map[] && s.grants == []
  }

  // ---- supervisors ------------------------------------------------------------------

  predicate LeaseIsFree(lease: Option<Lease>, me: SupervisorId, now: int) {
    lease.Some? && (lease.value.owner == me || lease.value.expiresAt <= now)
  }

  predicate TickingAt(s: State, i: SupervisorId) {
    i in s.supervisors && s.supervisors[i].Ticking?
  }

  ghost predicate SupervisorEnabled(s: State, i: SupervisorId, a: SupervisorAction) {
    match a
    case Boot => i !in s.supervisors
    case ReadClock => i in s.supervisors && s.supervisors[i].Asleep?
    case UpdateLease => i in s.supervisors && s.supervisors[i].Acquiring?
    case CreateLease => i in s.supervisors && s.supervisors[i].Creating?
    case Crash => i in s.supervisors
    case EndTick => TickingAt(s, i)
    case _ => TickingAt(s, i) && PointEnabled(s, s.supervisors[i].point, a)
  }

  ghost predicate PointEnabled(s: State, p: TickPoint, a: SupervisorAction) {
    match a
    case SnapshotStale(at) => p.AtReconcile? && at <= s.clock
    case RecoverJob(job, _, _, at, _) => p.Recovering? && job in p.todo && job in s.jobs && at <= s.clock
    case EndReconcile => p.Recovering? && p.todo == map[]
    case CountActive(_) => p.AtEnqueue?
    case FindCandidates(at, c) =>
      p.Dispatching? && p.activeCount < p.cap && at <= s.clock && IsCandidateList(s.jobs, at, c)
    case CheckCandidate => p.Scanning? && p.found != [] && p.found[0] in s.jobs
    case ClaimJob => p.Selected? && p.job in s.jobs
    case SpawnWorker(w) => p.Spawning? && w !in s.workers
    case RecordSpawn => p.Recording? && p.job in s.jobs
    case SpawnFails => p.Spawning? && p.job in s.jobs
    case EndDispatch => (p.Dispatching? && p.activeCount >= p.cap) || (p.Scanning? && p.found == [])
    case _ => false
  }

  function StaleJobs(jobs: JobTable, now: int): map<JobId, Job> {
    map id | id in jobs && IsStale(jobs[id], now) :: jobs[id]
  }

  function MoveTo(s: State, i: SupervisorId, sup: Supervisor): State {
    s.(supervisors := s.supervisors[i := sup])
  }

  function Point(s: State, i: SupervisorId, p: TickPoint): State
    requires TickingAt(s, i)
  {
    MoveTo(s, i, Ticking(s.supervisors[i].grantedAt, p))
  }

  function PutJob(s: State, id: JobId, j: Job): State {
    s.(jobs := s.jobs[id := j])
  }

  function GrantLease(s: State, i: SupervisorId, now: int): State {
    MoveTo(s, i, Ticking(now, AtReconcile)).(
      lease := Some(Lease(i, now + LEASE_TTL_MS)), grants := s.grants + [Grant(i, now)])
  }

  function SupervisorNext(s: State, i: SupervisorId, a: SupervisorAction): State
    requires SupervisorEnabled(s, i, a)
  {
    match a
    case Boot => MoveTo(s, i, Asleep)
    case ReadClock => MoveTo(s, i, Acquiring(s.clock))
    case UpdateLease =>
      var now := s.supervisors[i].now;
      if LeaseIsFree(s.lease, i, now) then GrantLease(s, i, now) else MoveTo(s, i, Creating(now))
    case CreateLease =>
      if s.lease.None? then GrantLease(s, i, s.supervisors[i].now) else MoveTo(s, i, Exited)
    case Crash => MoveTo(s, i, Exited)
    case EndTick => MoveTo(s, i, Asleep)
    case _ => PointNext(s, i, s.supervisors[i].point, a)
  }

  function PointNext(s: State, i: SupervisorId, p: TickPoint, a: SupervisorAction): State
    requires TickingAt(s, i) && s.supervisors[i].point == p && PointEnabled(s, p, a)
  {
    match a
    case SnapshotStale(at) => Point(s, i, Recovering(StaleJobs(s.jobs, at)))
    case RecoverJob(job, exit, alive, at, clears) =>
      PutJob(Point(s, i, Recovering(p.todo - {job})), job,
             Recover(s.jobs[job], p.todo[job], exit, alive, at, s.clock, clears))
    case EndReconcile => Point(s, i, AtEnqueue)
    case CountActive(cap) => Point(s, i, Dispatching(cap, |Active(s.jobs)|))
    case FindCandidates(at, c) => Point(s, i, Scanning(p.cap, p.activeCount, at, c))
    case CheckCandidate =>
      if IsBlocked(s.jobs, p.found[0]) then Point(s, i, Scanning(p.cap, p.activeCount, p.now, p.found[1..]))
      else Point(s, i, Selected(p.cap, p.activeCount, p.now, p.found[0]))
    case ClaimJob =>
      if IsRunnable(s.jobs[p.job], p.now) then
        PutJob(Point(s, i, Spawning(p.cap, p.activeCount, p.now, p.job)), p.job, Dispatch(s.jobs[p.job], p.now))
      else
        Point(s, i, AtCleanup)
    case SpawnWorker(w) =>
      Point(s, i, Recording(p.cap, p.activeCount, p.now, p.job)).(workers := s.workers[w := Starting(p.job)])
    case RecordSpawn =>
      PutJob(Point(s, i, Dispatching(p.cap, p.activeCount + 1)), p.job, RecordWorker(s.jobs[p.job], p.now))
    case SpawnFails =>
      PutJob(Point(s, i, Dispatching(p.cap, p.activeCount)), p.job, FailToLaunch(s.jobs[p.job]))
    case EndDispatch => Point(s, i, AtCleanup)
  }

  // ---- workers ----------------------------------------------------------------------

  ghost predicate WorkerEnabled(s: State, w: WorkerId, a: WorkerAction) {
    && w in s.workers
    && var me := s.workers[w];
       match a
       case StartJob => me.Starting? && me.job in s.jobs
       case BeatHeart => (me.Executing? || me.Finalizing?) && me.job in s.jobs
       case SeeCancel => (me.Executing? || me.Finalizing?) && me.job in s.jobs && s.jobs[me.job].cancelRequested
       case TimeOut => me.Executing?
       case LaunchFails => me.Executing? && me.job in s.jobs
       case BeginFinalize(fallback) =>
         me.Executing? && me.job in s.jobs && (fallback == RunCompleted || fallback == RunFailed)
       case EndFinalize(_) => me.Finalizing? && me.job in s.jobs
       case Die => true
  }

  function Outcome(killedBy: KillReason, fallback: RunStatus): RunStatus {
    match killedBy
    case NotKilled => fallback
    case ByTimeout => RunTimeout
    case ByUser => RunKilled
  }

  function SetWorker(s: State, w: WorkerId, me: Worker): State {
    s.(workers := s.workers[w := me])
  }

  function WorkerNext(s: State, w: WorkerId, a: WorkerAction): State
    requires WorkerEnabled(s, w, a)
  {
    var me := s.workers[w];
    match a
    case StartJob =>
      if s.jobs[me.job].status == Dispatched then
        PutJob(SetWorker(s, w, Executing(me.job, NotKilled)), me.job, Start(s.jobs[me.job], s.clock))
      else
        SetWorker(s, w, Gone)
    case BeatHeart => PutJob(s, me.job, s.jobs[me.job].(heartbeatAt := Some(s.clock)))
    case SeeCancel =>
      SetWorker(s, w, if me.Executing? then Executing(me.job, ByUser)
                      else Finalizing(me.job, ByUser, me.fallback, me.seen))
    case TimeOut => SetWorker(s, w, Executing(me.job, ByTimeout))
    case LaunchFails => PutJob(s, me.job, FailToLaunch(s.jobs[me.job]))
    case BeginFinalize(fallback) => SetWorker(s, w, Finalizing(me.job, me.killedBy, fallback, s.jobs[me.job]))
    case EndFinalize(clears) =>
      PutJob(SetWorker(s, w, Gone), me.job,
             Finalize(s.jobs[me.job], me.seen, Outcome(me.killedBy, me.fallback), s.clock, clears))
    case Die => SetWorker(s, w, Gone)
  }

  // ---- web process ------------------------------------------------------------------

  ghost predicate IsNewJob(j: Job) {
    exists retries, workspace, blocking, worktrees, timeout, queuedAt, scheduledFor, createdAt ::
      j == NewJob(retries, workspace, blocking, worktrees, timeout, queuedAt, scheduledFor, createdAt)
  }

  ghost predicate WebEnabled(s: State, k: RequestId, a: WebAction) {
    match a
    case Enqueue(id, j) => id !in s.jobs && IsNewJob(j)
    case ReadRun(target) => k !in s.kills && target in s.jobs && !KillRefuses(s.jobs[target].run)
    case ReadJob => k in s.kills && s.kills[k].RunRead? && s.kills[k].job in s.jobs
    case WriteKill => k in s.kills && s.kills[k].JobRead? && s.kills[k].job in s.jobs
  }

  function WebNext(s: State, k: RequestId, a: WebAction): State
    requires WebEnabled(s, k, a)
  {
    match a
    case Enqueue(id, j) => PutJob(s, id, j)
    case ReadRun(target) => s.(kills := s.kills[k := RunRead(target)])
    case ReadJob => s.(kills := s.kills[k := JobRead(s.kills[k].job, s.jobs[s.kills[k].job].status)])
    case WriteKill =>
      var target := s.kills[k].job;
      PutJob(s.(kills := s.kills[k := KillDone]), target, Kill(s.jobs[target], s.kills[k].seen))
  }

  // ---- runs -------------------------------------------------------------------------

  ghost predicate Enabled(s: State, step: Step) {
    match step
    case Wait(until) => s.clock <= until
    case BySupervisor(i, a) => SupervisorEnabled(s, i, a)
    case ByWorker(w, a) => WorkerEnabled(s, w, a)
    case ByWeb(k, a) => WebEnabled(s, k, a)
  }

  function Next(s: State, step: Step): State
    requires Enabled(s, step)
  {
    match step
    case Wait(until) => s.(clock := until)
    case BySupervisor(i, a) => SupervisorNext(s, i, a)
    case ByWorker(w, a) => WorkerNext(s, w, a)
    case ByWeb(k, a) => WebNext(s, k, a)
  }

  /** The single job document that a step writes, if it writes one. */
  datatype JobWrite = NoWrite | Put(id: JobId, doc: Job)

  function TickWrite(s: State, p: TickPoint, a: SupervisorAction): JobWrite
    requires PointEnabled(s, p, a)
  {
    match a
    case RecoverJob(job, exit, alive, at, clears) =>
      Put(job, Recover(s.jobs[job], p.todo[job], exit, alive, at, s.clock, clears))
    case ClaimJob => if IsRunnable(s.jobs[p.job], p.now) then Put(p.job, Dispatch(s.jobs[p.job], p.now)) else NoWrite
    case RecordSpawn => Put(p.job, RecordWorker(s.jobs[p.job], p.now))
    case SpawnFails => Put(p.job, FailToLaunch(s.jobs[p.job]))
    case _ => NoWrite
  }

  function WorkerWrite(s: State, w: WorkerId, a: WorkerAction): JobWrite
    requires WorkerEnabled(s, w, a)
  {
    var me := s.workers[w];
    match a
    case StartJob => if s.jobs[me.job].status == Dispatched then Put(me.job, Start(s.jobs[me.job], s.clock)) else NoWrite
    case BeatHeart => Put(me.job, s.jobs[me.job].(heartbeatAt := Some(s.clock)))
    case LaunchFails => Put(me.job, FailToLaunch(s.jobs[me.job]))
    case EndFinalize(clears) =>
      Put(me.job, Finalize(s.jobs[me.job], me.seen, Outcome(me.killedBy, me.fallback), s.clock, clears))
    case _ => NoWrite
  }

  function WebWrite(s: State, k: RequestId, a: WebAction): JobWrite
    requires WebEnabled(s, k, a)
  {
    match a
    case Enqueue(id, j) => Put(id, j)
    case WriteKill => Put(s.kills[k].job, Kill(s.jobs[s.kills[k].job], s.kills[k].seen))
    case _ => NoWrite
  }

  predicate IsTickAction(a: SupervisorAction) {
    !(a.Boot? || a.ReadClock? || a.UpdateLease? || a.CreateLease? || a.EndTick? || a.Crash?)
  }

  function WriteOf(s: State, step: Step): JobWrite
    requires Enabled(s, step)
  {
    match step
    case Wait(_) => NoWrite
    case BySupervisor(i, a) => if IsTickAction(a) then TickWrite(s, s.supervisors[i].point, a) else NoWrite
    case ByWorker(w, a) => WorkerWrite(s, w, a)
    case ByWeb(k, a) => WebWrite(s, k, a)
  }

  function Apply(jobs: JobTable, w: JobWrite): JobTable {
    match w
    case NoWrite => jobs
    case Put(id, doc) => jobs[id := doc]
  }

  /** Inside a tick a supervisor moves only its own point. */
  lemma TickFrame(s: State, i: SupervisorId, a: SupervisorAction)
    requires TickingAt(s, i) && PointEnabled(s, s.supervisors[i].point, a)
    ensures var t := PointNext(s, i, s.supervisors[i].point, a);
            && t.clock == s.clock && t.lease == s.lease && t.grants == s.grants && t.kills == s.kills
            && TickingAt(t, i)
            && t.supervisors == s.supervisors[i := Ticking(s.supervisors[i].grantedAt, t.supervisors[i].point)]
            && t.workers == (if a.SpawnWorker? then s.workers[a.worker := Starting(s.supervisors[i].point.job)] else s.workers)
            && t.jobs == Apply(s.jobs, TickWrite(s, s.supervisors[i].point, a))
  {
  }

  lemma WorkerFrame(s: State, w: WorkerId, a: WorkerAction)
    requires WorkerEnabled(s, w, a)
    ensures var t := WorkerNext(s, w, a);
            && t.clock == s.clock && t.lease == s.lease && t.grants == s.grants && t.kills == s.kills
            && t.supervisors == s.supervisors
            && w in t.workers && t.workers == s.workers[w := t.workers[w]]
            && t.jobs == Apply(s.jobs, WorkerWrite(s, w, a))
  {
  }

  lemma WebFrame(s: State, k: RequestId, a: WebAction)
    requires WebEnabled(s, k, a)
    ensures var t := WebNext(s, k, a);
            && t.clock == s.clock && t.lease == s.lease && t.grants == s.grants
            && t.supervisors == s.supervisors && t.workers == s.workers
            && t.jobs == Apply(s.jobs, WebWrite(s, k, a))
  {
  }

  /** Outside its ticks a supervisor writes no job, and a fresh tick starts at its first point. */
  lemma LeaseFrame(s: State, i: SupervisorId, a: SupervisorAction)
    requires SupervisorEnabled(s, i, a) && !IsTickAction(a)
    ensures var t := SupervisorNext(s, i, a);
            && t.clock == s.clock && t.kills == s.kills && t.workers == s.workers && t.jobs == s.jobs
            && i in t.supervisors && t.supervisors == s.supervisors[i := t.supervisors[i]]
            && (t.supervisors[i].Ticking? ==> t.supervisors[i].point == AtReconcile)
  {
  }

  lemma OneWrite(s: State, step: Step)
    requires Enabled(s, step)
    ensures Next(s, step).jobs == Apply(s.jobs, WriteOf(s, step))
  {
    match step
    case Wait(_) =>
    case BySupervisor(i, a) => if IsTickAction(a) { TickFrame(s, i, a); } else { LeaseFrame(s, i, a); }
    case ByWorker(w, a) => WorkerFrame(s, w, a);
    case ByWeb(k, a) => WebFrame(s, k, a);
  }

  ghost predicate Legal(s: State, steps: seq<Step>)
    decreases |steps|
  {
    steps == [] || (Enabled(s, steps[0]) && Legal(Next(s, steps[0]), steps[1..]))
  }

  function Exec(s: State, steps: seq<Step>): State
    requires Legal(s, steps)
    decreases |steps|
  {
    if steps == [] then s else Exec(Next(s, steps[0]), steps[1..])
  }
}
