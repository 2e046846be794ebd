/**
 A run in which a job starts a third attempt although maxAttempts is two: a worker stalls in
 finalize after reading the job, the job is recovered as stale and retried, and then the first
 worker writes its own retry from what it had read. One supervisor, always within its lease.
 */
module Overrun {
  import opened Wrappers
  import opened Jobs
  import opened Engine
  import opened LeaseSafety
  import opened Exclusion
  import opened Scenarios

  /** Every recovery and claim within the lease, and caps of at most 2. */
  const PUNCTUAL := Terms(true, 2)

  /** The job of the story with two attempts; only its progress varies. */
  function Story(status: JobStatus, run: RunStatus, attempts: nat, next: int, beat: Option<int>, started: Option<int>,
                 dispatches: nat): Job {
    Job(status, run, attempts, 2, None, false, false, false, Some(next), None, 0, beat, started, 60, dispatches)
  }

  function At(clock: int, grantedAt: int, sup: Supervisor, workers: map<WorkerId, Worker>, j: Job, grants: seq<Grant>): State {
    State(clock, Some(Lease(0, grantedAt + LEASE_TTL_MS)), map[0 := sup], workers, map[], map[0 := j], grants)
  }

  /** From the start of a tick without active jobs to the dispatch loop. */
  lemma Open(clock: int, g: int, workers: map<WorkerId, Worker>, j: Job, grants: seq<Grant>) returns (t: State)
    requires !IsActive(j) && Reachable(PUNCTUAL, At(clock, g, Ticking(g, AtReconcile), workers, j, grants))
    ensures t == At(clock, g, Ticking(g, Dispatching(2, 0)), workers, j, grants) && Reachable(PUNCTUAL, t)
  {
    var s := At(clock, g, Ticking(g, AtReconcile), workers, j, grants);
    assert Active(s.jobs) == {};
    t := OpenDispatch(PUNCTUAL, s, 0);
    assert t.supervisors == map[0 := Ticking(g, Dispatching(2, 0))];
  }

  lemma SelectAndClaim(clock: int, g: int, count: int, workers: map<WorkerId, Worker>, j: Job, grants: seq<Grant>)
    returns (t: State)
    requires g <= clock < g + LEASE_TTL_MS && IsRunnable(j, clock) && j.workspace.None? && count < 2
    requires Reachable(PUNCTUAL, At(clock, g, Ticking(g, Dispatching(2, count)), workers, j, grants))
    ensures t == At(clock, g, Ticking(g, Spawning(2, count, clock, 0)), workers, Dispatch(j, clock), grants)
    ensures Reachable(PUNCTUAL, t)
  {
    var s := At(clock, g, Ticking(g, Dispatching(2, count)), workers, j, grants);
    assert Runnable(s.jobs, s.clock) == {0};
    t := Select(PUNCTUAL, s, 0, count, [0]);
    t := Claim(PUNCTUAL, t, 0, count, clock, 0);
    assert t.supervisors == map[0 := Ticking(g, Spawning(2, count, clock, 0))];
    assert t.jobs == map[0 := Dispatch(j, clock)];
  }

  /** One round of the dispatch loop, and the start of the worker it spawns. */
  lemma DispatchAndStart(clock: int, g: int, count: int, workers: map<WorkerId, Worker>, w: WorkerId, j: Job,
                         grants: seq<Grant>) returns (t: State)
    requires g <= clock < g + LEASE_TTL_MS && w !in workers && IsRunnable(j, clock) && j.workspace.None? && count < 2
    requires Reachable(PUNCTUAL, At(clock, g, Ticking(g, Dispatching(2, count)), workers, j, grants))
    ensures t == At(clock, g, Ticking(g, Dispatching(2, count + 1)), workers[w := Executing(0, NotKilled)],
                    Start(RecordWorker(Dispatch(j, clock), clock), clock), grants)
    ensures Reachable(PUNCTUAL, t)
  {
    t := SelectAndClaim(clock, g, count, workers, j, grants);
    t := SpawnAndStart(t, g, count, w);
    assert t.supervisors == map[0 := Ticking(g, Dispatching(2, count + 1))];
    assert t.jobs == map[0 := Start(RecordWorker(Dispatch(j, clock), clock), clock)];
  }

  lemma Spawn(s: State, g: int, count: int, w: WorkerId) returns (t: State)
    requires Reachable(PUNCTUAL, s) && Live(s, 0) && s.supervisors[0] == Ticking(g, Spawning(2, count, s.clock, 0))
    requires 0 in s.jobs && w !in s.workers
    ensures t == s.(supervisors := s.supervisors[0 := Ticking(g, Dispatching(2, count + 1))],
                    workers := s.workers[w := Starting(0)], jobs := s.jobs[0 := RecordWorker(s.jobs[0], s.clock)])
    ensures Reachable(PUNCTUAL, t)
  {
    t := ReachTick(PUNCTUAL, s, 0, SpawnWorker(w));
    assert t == s.(supervisors := s.supervisors[0 := Ticking(g, Recording(2, count, s.clock, 0))],
                   workers := s.workers[w := Starting(0)]);
    t := ReachTick(PUNCTUAL, t, 0, RecordSpawn);
    assert t.supervisors == s.supervisors[0 := Ticking(g, Dispatching(2, count + 1))];
  }

  lemma SpawnAndStart(s: State, g: int, count: int, w: WorkerId) returns (t: State)
    requires Reachable(PUNCTUAL, s) && Live(s, 0) && s.supervisors[0] == Ticking(g, Spawning(2, count, s.clock, 0))
    requires 0 in s.jobs && s.jobs[0].status == Dispatched && w !in s.workers
    ensures t.supervisors == s.supervisors[0 := Ticking(g, Dispatching(2, count + 1))]
    ensures t.workers == s.workers[w := Executing(0, NotKilled)]
    ensures t.jobs == s.jobs[0 := Start(RecordWorker(s.jobs[0], s.clock), s.clock)]
    ensures t.clock == s.clock && t.lease == s.lease && t.grants == s.grants && t.kills == s.kills
    ensures Reachable(PUNCTUAL, t)
  {
    var r := Spawn(s, g, count, w);
    t := WorkerNext(r, w, StartJob);
    Reach(PUNCTUAL, r, ByWorker(w, StartJob));
    assert t.jobs == r.jobs[0 := Start(r.jobs[0], s.clock)];
  }

  /** The owner ends its tick, waits and renews its lease. */
  lemma NextTick(clock: int, g: int, p: TickPoint, workers: map<WorkerId, Worker>, j: Job, grants: seq<Grant>, until: int)
    requires clock <= until && Reachable(PUNCTUAL, At(clock, g, Ticking(g, p), workers, j, grants))
    ensures Reachable(PUNCTUAL, At(until, until, Ticking(until, AtReconcile), workers, j, grants + [Grant(0, until)]))
  {
    var s := At(clock, g, Ticking(g, p), workers, j, grants);
    Reach(PUNCTUAL, s, BySupervisor(0, EndTick));
    assert Next(s, BySupervisor(0, EndTick)) == At(clock, g, Asleep, workers, j, grants);
    Reach(PUNCTUAL, At(clock, g, Asleep, workers, j, grants), Wait(until));
    Renew(until, g, workers, j, grants);
  }

  lemma Renew(clock: int, g: int, workers: map<WorkerId, Worker>, j: Job, grants: seq<Grant>)
    requires Reachable(PUNCTUAL, At(clock, g, Asleep, workers, j, grants))
    ensures Reachable(PUNCTUAL, At(clock, clock, Ticking(clock, AtReconcile), workers, j, grants + [Grant(0, clock)]))
  {
    var s := At(clock, g, Asleep, workers, j, grants);
    Reach(PUNCTUAL, s, BySupervisor(0, ReadClock));
    var t := At(clock, g, Acquiring(clock), workers, j, grants);
    assert Next(s, BySupervisor(0, ReadClock)) == t;
    Reach(PUNCTUAL, t, BySupervisor(0, UpdateLease));
    assert SupervisorNext(t, 0, UpdateLease).supervisors == map[0 := Ticking(clock, AtReconcile)];
  }

  lemma FirstJob() returns (s: State)
    ensures s == State(0, None, map[], map[], map[], map[0 := Story(Queued, RunQueued, 0, 0, None, None, 0)], [])
    ensures Reachable(PUNCTUAL, s)
  {
    s := State(0, None, map[], map[], map[], map[], []);
    Begin(PUNCTUAL, s);
    var j := NewJob(None, None, false, false, 60, 0, None, 0);
    assert IsNewJob(j);
    Reach(PUNCTUAL, s, ByWeb(0, Enqueue(0, j)));
    s := Next(s, ByWeb(0, Enqueue(0, j)));
  }

  lemma FirstTick()
    ensures Reachable(PUNCTUAL, At(0, 0, Ticking(0, AtReconcile), map[], Story(Queued, RunQueued, 0, 0, None, None, 0), [Grant(0, 0)]))
  {
    var s := FirstJob();
    s := Grab(PUNCTUAL, s, 0);
    assert s.supervisors == map[0 := Ticking(0, AtReconcile)] && s.grants == [Grant(0, 0)];
  }

  /** Worker 0 reads the job in finalize and stalls; a heartbeat time later the job is recovered as stale. */
  lemma StallInFinalize() returns (seen: Job)
    ensures seen == Story(Running, RunRunning, 1, 0, Some(0), Some(0), 1)
    ensures Reachable(PUNCTUAL, At(20_000, 20_000, Ticking(20_000, AtReconcile), map[0 := Finalizing(0, NotKilled, RunFailed, seen)],
                         seen, [Grant(0, 0), Grant(0, 20_000)]))
  {
    FirstTick();
    var first := Story(Queued, RunQueued, 0, 0, None, None, 0);
    var s := Open(0, 0, map[], first, [Grant(0, 0)]);
    s := DispatchAndStart(0, 0, 0, map[], 0, first, [Grant(0, 0)]);
    seen := s.jobs[0];
    Reach(PUNCTUAL, s, ByWorker(0, BeginFinalize(RunFailed)));
    var workers := map[0 := Finalizing(0, NotKilled, RunFailed, seen)];
    assert WorkerNext(s, 0, BeginFinalize(RunFailed)) == s.(workers := workers);
    NextTick(0, 0, Dispatching(2, 1), workers, seen, [Grant(0, 0)], 20_000);
    assert [Grant(0, 0)] + [Grant(0, 20_000)] == [Grant(0, 0), Grant(0, 20_000)];
  }

  lemma RecoverWhileFinalizing() returns (seen: Job, j: Job)
    ensures seen == Story(Running, RunRunning, 1, 0, Some(0), Some(0), 1)
    ensures j == Story(Retrying, RunRetrying, 1, 35_000, Some(0), Some(0), 1)
    ensures Reachable(PUNCTUAL, At(35_000, 35_000, Ticking(35_000, AtReconcile),
                         map[0 := Finalizing(0, NotKilled, RunFailed, seen)], j,
                         [Grant(0, 0), Grant(0, 20_000), Grant(0, 35_000)]))
  {
    seen := StallInFinalize();
    var workers, grants := map[0 := Finalizing(0, NotKilled, RunFailed, seen)], [Grant(0, 0), Grant(0, 20_000)];
    var s := At(20_000, 20_000, Ticking(20_000, AtReconcile), workers, seen, grants);
    assert StaleJobs(s.jobs, 20_000) == map[0 := seen];
    s := ReachTick(PUNCTUAL, s, 0, SnapshotStale(20_000));
    assert s.supervisors[0].point == Recovering(map[0 := seen]);
    s := ReachTick(PUNCTUAL, s, 0, RecoverJob(0, None, false, 20_000, false));
    j := Recover(seen, seen, None, false, 20_000, 20_000, false);
    var p := s.supervisors[0].point;
    assert s == At(20_000, 20_000, Ticking(20_000, p), workers, j, grants);
    NextTick(20_000, 20_000, p, workers, j, grants, 35_000);
    assert grants + [Grant(0, 35_000)] == [Grant(0, 0), Grant(0, 20_000), Grant(0, 35_000)];
  }

  /** The stalled worker ends its finalize after the second attempt has started. */
  lemma LateFinalize(s: State) returns (t: State)
    requires Reachable(PUNCTUAL, s) && s.clock == 35_000 && 0 in s.jobs && 0 in s.workers && s.workers[0].Finalizing?
    requires s.workers[0] == Finalizing(0, NotKilled, RunFailed, Story(Running, RunRunning, 1, 0, Some(0), Some(0), 1))
    ensures t == s.(clock := 50_000, workers := s.workers[0 := Gone],
                    jobs := s.jobs[0 := QueueRetry(s.jobs[0], 35_000, false)])
    ensures Reachable(PUNCTUAL, t)
  {
    Reach(PUNCTUAL, s, ByWorker(0, EndFinalize(false)));
    t := WorkerNext(s, 0, EndFinalize(false));
    Reach(PUNCTUAL, t, Wait(50_000));
    t := t.(clock := 50_000);
  }

  lemma ThirdAttempt() returns (s: State)
    ensures Reachable(PUNCTUAL, s) && 0 in s.jobs && s.jobs[0].attemptCount == 3 && s.jobs[0].maxAttempts == 2
  {
    var grants := [Grant(0, 0), Grant(0, 20_000), Grant(0, 35_000)];
    var seen, j := RecoverWhileFinalizing();
    var w0 := map[0 := Finalizing(0, NotKilled, RunFailed, seen)];
    s := Open(35_000, 35_000, w0, j, grants);
    s := DispatchAndStart(35_000, 35_000, 0, w0, 1, j, grants);
    s := LateFinalize(s);
    var late := s.jobs[0];
    assert s == At(50_000, 35_000, Ticking(35_000, Dispatching(2, 1)), s.workers, late, grants);
    s := DispatchAndStart(50_000, 35_000, 1, s.workers, 2, late, grants);
  }

  /**
   Main result: the bound on attempts fails at document level. A run with one supervisor, always
   on time, reaches a state whose job has started more attempts than maxAttempts allows.
   */
  lemma AttemptsCanExceedMax()
    ensures exists s :: Reachable(PUNCTUAL, s) && 0 in s.jobs && s.jobs[0].attemptCount > s.jobs[0].maxAttempts
  {
    var s := ThirdAttempt();
  }
}
