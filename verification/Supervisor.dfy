/**
 The supervisor's own code: acquireLease and the passes of a tick, as loops over database calls.
 Between two calls any other actor may act.
 */
module SupervisorCode {
  import opened Wrappers
  import opened Jobs
  import opened Engine
  import opened LeaseSafety
  import opened Exclusion
  import opened Concurrency
  import opened Databases

  // ---- sorted find ------------------------------------------------------------------

  lemma SortsBeforeTransitive(a: Job, b: Job, c: Job)
    requires SortsBefore(a, b) && SortsBefore(b, c)
    ensures SortsBefore(a, c)
  {
  }

  method LeastOf(jobs: JobTable, ids: set<JobId>) returns (best: JobId)
    requires ids <= jobs.Keys && ids != {}
    ensures best in ids && forall x | x in ids :: !SortsBefore(jobs[x], jobs[best])
  {
    best :| best in ids;
    var rest := ids - {best};
    while rest != {}
      invariant best in ids && rest <= ids
      invariant forall x | x in ids && x !in rest :: !SortsBefore(jobs[x], jobs[best])
    {
      var x :| x in rest;
      rest := rest - {x};
      if SortsBefore(jobs[x], jobs[best]) {
        forall y | y in ids && y !in rest && SortsBefore(jobs[y], jobs[x])
          ensures SortsBefore(jobs[y], jobs[best])
        {
          SortsBeforeTransitive(jobs[y], jobs[x], jobs[best]);
        }
        best := x;
      }
    }
  }

  /** Earlier scheduled time first, then earlier attempt, then earlier creation; no time comes before any time. */
  predicate ComesFirst(a: Job, b: Job) {
    || (a.scheduledFor.None? && b.scheduledFor.Some?)
    || (a.scheduledFor.Some? && b.scheduledFor.Some? && a.scheduledFor.value < b.scheduledFor.value)
    || (&& a.scheduledFor == b.scheduledFor
        && (|| (a.nextAttemptAt.None? && b.nextAttemptAt.Some?)
            || (a.nextAttemptAt.Some? && b.nextAttemptAt.Some? && a.nextAttemptAt.value < b.nextAttemptAt.value)
            || (a.nextAttemptAt == b.nextAttemptAt && a.createdAt <= b.createdAt)))
  }

  lemma SortsByTimes(a: Job, b: Job)
    ensures !SortsBefore(b, a) <==> ComesFirst(a, b)
  {
  }

  /** The waiting jobs whose time has come, in the order of their times and at most 25 of them. */
  ghost predicate AreDueJobs(jobs: JobTable, now: int, found: seq<JobId>) {
    && |found| <= 25
    && (forall k | 0 <= k < |found| :: found[k] in jobs && MayRun(jobs[found[k]], now))
    && (forall k, l | 0 <= k < l < |found| :: found[k] != found[l] && ComesFirst(jobs[found[k]], jobs[found[l]]))
    && (forall id | id in jobs && MayRun(jobs[id], now) && id !in found ::
          |found| == 25 && forall k | 0 <= k < |found| :: ComesFirst(jobs[found[k]], jobs[id]))
  }

  lemma CandidatesAreDue(jobs: JobTable, now: int, found: seq<JobId>)
    requires IsCandidateList(jobs, now, found)
    ensures AreDueJobs(jobs, now, found)
  {
    forall k, l | 0 <= k < l < |found|
      ensures found[k] != found[l] && ComesFirst(jobs[found[k]], jobs[found[l]])
    {
      SortsByTimes(jobs[found[k]], jobs[found[l]]);
    }
    forall id | id in jobs && MayRun(jobs[id], now) && id !in found
      ensures |found| == 25 && forall k | 0 <= k < |found| :: ComesFirst(jobs[found[k]], jobs[id])
    {
      assert id in Runnable(jobs, now);
      forall k | 0 <= k < |found|
        ensures ComesFirst(jobs[found[k]], jobs[id])
      {
        SortsByTimes(jobs[found[k]], jobs[id]);
      }
    }
  }

  /** The database's sorted and limited find over the runnable jobs. */
  method FindRunnable(jobs: JobTable, now: int) returns (found: seq<JobId>)
    ensures IsCandidateList(jobs, now, found) && AreDueJobs(jobs, now, found)
  {
    found := [];
    var rest := Runnable(jobs, now);
    while |found| < CANDIDATE_LIMIT && rest != {}
      invariant |found| <= CANDIDATE_LIMIT && rest <= Runnable(jobs, now)
      invariant forall id | id in Runnable(jobs, now) :: id in rest <==> id !in found
      invariant forall k | 0 <= k < |found| :: found[k] in Runnable(jobs, now)
      invariant forall k, id | 0 <= k < |found| && id in rest :: !SortsBefore(jobs[id], jobs[found[k]])
      invariant forall k, l | 0 <= k < l < |found| ::
                  found[k] != found[l] && !SortsBefore(jobs[found[l]], jobs[found[k]])
      decreases rest
    {
      var best := LeastOf(jobs, rest);
      found := found + [best];
      rest := rest - {best};
    }
    CandidatesAreDue(jobs, now, found);
  }

  // ---- what a selection means -------------------------------------------------------

  /** Runnable, not blocked, and no other such job sorts before it. */
  ghost predicate IsFirstUnblocked(jobs: JobTable, now: int, id: JobId) {
    && id in Runnable(jobs, now) && !IsBlocked(jobs, id)
    && forall other | other in Runnable(jobs, now) && !IsBlocked(jobs, other) :: !SortsBefore(jobs[other], jobs[id])
  }

  lemma FirstOfCandidates(jobs: JobTable, now: int, found: seq<JobId>, k: nat)
    requires IsCandidateList(jobs, now, found) && k < |found|
    requires (forall l | 0 <= l < k :: IsBlocked(jobs, found[l])) && !IsBlocked(jobs, found[k])
    ensures IsFirstUnblocked(jobs, now, found[k])
  {
    forall other | other in Runnable(jobs, now) && !IsBlocked(jobs, other)
      ensures !SortsBefore(jobs[other], jobs[found[k]])
    {
      if other in found {
        var l :| 0 <= l < |found| && found[l] == other;
        assert k <= l;
        assert l == k ==> !SortsBefore(jobs[other], jobs[other]);
      }
    }
  }

  /** All jobs the pass may look at are blocked: the first CANDIDATE_LIMIT runnable ones in sort order. */
  ghost predicate Stuck(jobs: JobTable, now: int) {
    exists found :: IsCandidateList(jobs, now, found) && forall k | 0 <= k < |found| :: IsBlocked(jobs, found[k])
  }

  /** With at most CANDIDATE_LIMIT runnable jobs nothing escapes the pass. */
  lemma StuckMeansAllBlocked(jobs: JobTable, now: int)
    requires Stuck(jobs, now)
    ensures |Runnable(jobs, now)| <= CANDIDATE_LIMIT ==> forall id | id in Runnable(jobs, now) :: IsBlocked(jobs, id)
  {
    var found :| IsCandidateList(jobs, now, found) && forall k | 0 <= k < |found| :: IsBlocked(jobs, found[k]);
    if |Runnable(jobs, now)| <= CANDIDATE_LIMIT {
      var ids := set k | 0 <= k < |found| :: found[k];
      DistinctCount(found);
      assert ids <= Runnable(jobs, now);
      if |found| == CANDIDATE_LIMIT && ids != Runnable(jobs, now) {
        SubsetSize(ids, Runnable(jobs, now));
        assert |Runnable(jobs, now) - ids| == |Runnable(jobs, now)| - |ids|;
        assert Runnable(jobs, now) - ids == {};
      }
    }
  }

  // ---- the same in fields -----------------------------------------------------------

  /** The job waits, is not cancelled, and no time is set for it that has not come. */
  predicate MayRun(j: Job, now: int) {
    (j.status == Queued || j.status == Retrying) && !j.cancelRequested && (j.nextAttemptAt.Some? ==> j.nextAttemptAt.value <= now)
  }

  /** A dispatched or running job that blocks and is not cancelled is in the workspace which the job may not share. */
  ghost predicate IsHeldBack(jobs: JobTable, id: JobId)
    requires id in jobs
  {
    && jobs[id].blocking && !jobs[id].worktrees && jobs[id].workspace.Some?
    && exists other | other in jobs && other != id ::
         && (jobs[other].status == Dispatched || jobs[other].status == Running)
         && jobs[other].blocking && !jobs[other].cancelRequested && jobs[other].workspace == jobs[id].workspace
  }

  lemma BlockedIsHeldBack(jobs: JobTable, id: JobId)
    requires id in jobs
    ensures IsBlocked(jobs, id) <==> IsHeldBack(jobs, id)
  {
    if IsBlocked(jobs, id) {
      var other :| other in jobs && IsRival(jobs, id, other);
      assert jobs[other].workspace == jobs[id].workspace;
    }
    if IsHeldBack(jobs, id) {
      var other :| other in jobs && other != id && IsActive(jobs[other]) && jobs[other].blocking
                   && !jobs[other].cancelRequested && jobs[other].workspace == jobs[id].workspace;
      assert IsRival(jobs, id, other);
    }
  }

  /** A pass that ended below its cap has left no job behind that could run: the promise of a dispatch pass. */
  ghost predicate NothingLeft(jobs: JobTable, now: int, cap: int) {
    |set id | id in jobs && (jobs[id].status == Dispatched || jobs[id].status == Running)| < cap
    && |set id | id in jobs && MayRun(jobs[id], now)| <= 25
    ==> forall id | id in jobs && MayRun(jobs[id], now) :: IsHeldBack(jobs, id)
  }

  lemma NothingIsLeft(jobs: JobTable, now: int, cap: int)
    ensures |Active(jobs)| >= cap || Stuck(jobs, now) ==> NothingLeft(jobs, now, cap)
  {
    assert (set id | id in jobs && (jobs[id].status == Dispatched || jobs[id].status == Running)) == Active(jobs);
    assert (set id | id in jobs && MayRun(jobs[id], now)) == Runnable(jobs, now);
    if Stuck(jobs, now) && |Active(jobs)| < cap && |Runnable(jobs, now)| <= 25 {
      StuckMeansAllBlocked(jobs, now);
      forall id | id in jobs && MayRun(jobs[id], now)
        ensures IsHeldBack(jobs, id)
      {
        BlockedIsHeldBack(jobs, id);
      }
    }
  }

  lemma {:induction false} DistinctCount(s: seq<JobId>)
    requires forall k, l | 0 <= k < l < |s| :: s[k] != s[l]
    ensures |set k | 0 <= k < |s| :: s[k]| == |s|
  {
    var ids := set k | 0 <= k < |s| :: s[k];
    if s == [] {
      assert ids == {};
    } else {
      var init := s[..|s| - 1];
      DistinctCount(init);
      var rest := set k | 0 <= k < |init| :: init[k];
      assert forall x | x in ids :: x == s[|s| - 1] || x in rest by {
        forall x | x in ids && x != s[|s| - 1] ensures x in rest {
          var k :| 0 <= k < |s| && s[k] == x;
          assert init[k] == x;
        }
      }
      assert ids == rest + {s[|s| - 1]};
    }
  }

  /** The documents after one undisturbed dispatch round. */
  function Launch(jobs: JobTable, job: JobId, now: int, spawned: bool): JobTable
    requires job in jobs
  {
    var dispatched := Dispatch(jobs[job], now);
    jobs[job := if spawned then RecordWorker(dispatched, now) else FailToLaunch(dispatched)]
  }

  ghost predicate IsDispatchRound(before: JobTable, after: JobTable, now: int, job: JobId, host: Host) {
    IsFirstUnblocked(before, now, job) && after == Launch(before, job, now, host.spawns(job))
  }

  /** The pass claims `claimed` one after another, each the first unblocked job at its turn and its reading. */
  ghost predicate IsDispatchPass(first: JobTable, last: JobTable, claimed: seq<JobId>, times: seq<int>, tables: seq<JobTable>,
                                 host: Host) {
    && |tables| == |claimed| + 1 && |times| == |claimed| && tables[0] == first && tables[|claimed|] == last
    && forall k | 0 <= k < |claimed| :: IsDispatchRound(tables[k], tables[k + 1], times[k], claimed[k], host)
  }

  /** What a pass makes of the document of a job: handed to a worker, or failed because it has none. */
  predicate IsHandedOver(before: Job, after: Job, spawned: bool) {
    && (before.status == Queued || before.status == Retrying) && !before.cancelRequested
    && after.dispatchCount == before.dispatchCount + 1 && after.attemptCount == before.attemptCount
    && after.heartbeatAt.Some? && !after.cancelRequested
    && after.status == (if spawned then Dispatched else Failed) && after.run == (if spawned then before.run else RunFailed)
    && after.workspace == before.workspace && after.blocking == before.blocking && after.worktrees == before.worktrees
  }

  /** One round: the job may run at the round's reading, nothing holds it back, and no other document changes. */
  lemma RoundHandsOver(before: JobTable, after: JobTable, now: int, job: JobId, host: Host)
    requires IsDispatchRound(before, after, now, job, host)
    ensures job in before && MayRun(before[job], now) && !IsHeldBack(before, job)
    ensures after == before[job := after[job]] && IsHandedOver(before[job], after[job], host.spawns(job))
    ensures after[job].heartbeatAt == Some(now)
  {
    BlockedIsHeldBack(before, job);
  }

  /** Main result: over a whole pass each job is handed over at most once, and every other document stays as it was. */
  lemma {:induction false} PassHandsOver(first: JobTable, last: JobTable, claimed: seq<JobId>, times: seq<int>,
                                         tables: seq<JobTable>, host: Host)
    requires IsDispatchPass(first, last, claimed, times, tables, host)
    ensures first.Keys == last.Keys && forall k, l | 0 <= k < l < |claimed| :: claimed[k] != claimed[l]
    ensures forall id | id in first ::
              if id in claimed then IsHandedOver(first[id], last[id], host.spawns(id)) else last[id] == first[id]
    decreases |claimed|
  {
    if claimed != [] {
      var n := |claimed| - 1;
      PassButLast(first, last, claimed, times, tables, host);
      PassHandsOver(first, tables[n], claimed[..n], times[..n], tables[..|claimed|], host);
      RoundHandsOver(tables[n], last, times[n], claimed[n], host);
      OneMoreHandedOver(first, tables[n], last, claimed[..n], claimed[n], host);
      assert claimed == claimed[..n] + [claimed[n]];
    }
  }

  lemma PassButLast(first: JobTable, last: JobTable, claimed: seq<JobId>, times: seq<int>, tables: seq<JobTable>, host: Host)
    requires IsDispatchPass(first, last, claimed, times, tables, host) && claimed != []
    ensures var n := |claimed| - 1;
            && IsDispatchPass(first, tables[n], claimed[..n], times[..n], tables[..|claimed|], host)
            && IsDispatchRound(tables[n], last, times[n], claimed[n], host)
  {
    var n := |claimed| - 1;
    forall k | 0 <= k < n
      ensures IsDispatchRound(tables[..|claimed|][k], tables[..|claimed|][k + 1], times[..n][k], claimed[..n][k], host)
    {
      assert IsDispatchRound(tables[k], tables[k + 1], times[k], claimed[k], host);
    }
  }

  lemma OneMoreHandedOver(first: JobTable, previous: JobTable, last: JobTable, claimed: seq<JobId>, job: JobId, host: Host)
    requires first.Keys == previous.Keys && job in previous && job in last && last == previous[job := last[job]]
    requires forall id | id in first ::
               if id in claimed then IsHandedOver(first[id], previous[id], host.spawns(id)) else previous[id] == first[id]
    requires IsHandedOver(previous[job], last[job], host.spawns(job))
    ensures job !in claimed && first.Keys == last.Keys
    ensures forall id | id in first ::
              if id in claimed + [job] then IsHandedOver(first[id], last[id], host.spawns(id)) else last[id] == first[id]
  {
  }

  lemma ExtendPass(first: JobTable, last: JobTable, next: JobTable, claimed: seq<JobId>, times: seq<int>,
                   tables: seq<JobTable>, job: JobId, now: int, host: Host)
    requires IsDispatchPass(first, last, claimed, times, tables, host) && IsDispatchRound(last, next, now, job, host)
    ensures IsDispatchPass(first, next, claimed + [job], times + [now], tables + [next], host)
  {
  }

  /** Clock readings one after another, none before `from`. */
  ghost predicate AreReadings(from: int, times: seq<int>) {
    && (forall k | 0 <= k < |times| :: from <= times[k])
    && (forall k, l | 0 <= k < l < |times| :: times[k] <= times[l])
  }

  lemma LaterReading(from: int, times: seq<int>, previous: int, now: int, claims: bool)
    requires AreReadings(from, times + [previous]) && previous <= now
    ensures AreReadings(from, times + [now])
    ensures claims ==> AreReadings(from, times + [now] + [now])
  {
    forall k | 0 <= k < |times|
      ensures from <= times[k] <= previous
    {
      assert (times + [previous])[k] == times[k] && (times + [previous])[|times|] == previous;
    }
    forall k, l | 0 <= k < l < |times|
      ensures times[k] <= times[l]
    {
      assert (times + [previous])[k] == times[k] && (times + [previous])[l] == times[l];
    }
    assert from <= (times + [previous])[|times|];
  }

  // ---- the supervisor ---------------------------------------------------------------

  /** What the host answers during one tick: exit markers found, executions alive, workers that can be spawned. */
  datatype Host = Host(exits: JobId -> Option<ExitMarker>, alive: JobId -> bool, spawns: JobId -> bool)

  /** Recovered from its own document, decided and written between the two times. */
  ghost predicate IsRecovered(seen: Job, after: Job, from: int, to: int, exit: Option<ExitMarker>, alive: bool) {
    exists at, now, clears :: IsRecovery(seen, after, from, to, exit, alive, at, now, clears)
  }

  ghost predicate IsRecovery(seen: Job, after: Job, from: int, to: int, exit: Option<ExitMarker>, alive: bool, at: int,
                             now: int, clears: bool) {
    from <= at <= now <= to && after == Recover(seen, seen, exit, alive, at, now, clears)
  }

  /** The jobs in `done` are recovered from their own documents and the host's answers, and the others untouched. */
  ghost predicate PassSoFar(before: JobTable, after: JobTable, from: int, to: int, done: set<JobId>, host: Host) {
    && after.Keys == before.Keys
    && forall id | id in before ::
         if id in done then IsRecovered(before[id], after[id], from, to, host.exits(id), host.alive(id))
         else after[id] == before[id]
  }

  /** Exactly the jobs that are stale at `from` are recovered, all by `to`. */
  ghost predicate IsReconcilePass(before: JobTable, after: JobTable, from: int, to: int, host: Host) {
    PassSoFar(before, after, from, to, StaleJobs(before, from).Keys, host)
  }

  /** A dispatched or running job whose last sign of life is at least 20 s old. */
  predicate IsSilent(j: Job, now: int) {
    (j.status == Dispatched || j.status == Running) && j.heartbeatAt.Some? && now - j.heartbeatAt.value >= 20_000
  }

  predicate RanOver(j: Job, at: int) {
    j.startedAt.Some? && at - j.startedAt.value > j.timeoutMinutes * 60_000
  }

  /** What a pass between the two times makes of a silent job, by its fields and the host's answers. */
  ghost predicate IsDecided(b: Job, a: Job, from: int, to: int, exit: Option<ExitMarker>, alive: bool) {
    var triesAgain := b.attemptCount < b.maxAttempts && !b.cancelRequested;
    && a == b.(status := a.status, run := a.run, heartbeatAt := a.heartbeatAt, nextAttemptAt := a.nextAttemptAt)
    && (a.status == Retrying ==> a.run == RunRetrying && a.nextAttemptAt.Some? && from + 15_000 <= a.nextAttemptAt.value <= to + 15_000)
    && (a.status == Retrying ==> a.heartbeatAt == None || a.heartbeatAt == b.heartbeatAt)
    && (a.status != Retrying ==> a.nextAttemptAt == b.nextAttemptAt)
    && (a.status == Running ==> a.heartbeatAt.Some? && from <= a.heartbeatAt.value <= to)
    && if exit.Some? then
         a.status == if exit.value.exitCode == 0 then Completed else if triesAgain then Retrying else Failed
       else if b.cancelRequested then a.status == Canceled && a.run == RunKilled
       else
         && (RanOver(b, from) ==> a.run == RunTimeout) && (a.run == RunTimeout ==> RanOver(b, to))
         && a.status == if a.run == RunTimeout then Failed else if alive then Running else if triesAgain then Retrying else Failed
  }

  /** An undisturbed pass leaves every job alone that is not silent, and decides every silent one. */
  ghost predicate RecoversSilent(before: JobTable, after: JobTable, from: int, to: int, host: Host) {
    && after.Keys == before.Keys
    && forall id | id in before ::
         if IsSilent(before[id], from) then IsDecided(before[id], after[id], from, to, host.exits(id), host.alive(id))
         else after[id] == before[id]
  }

  lemma RecoveryIsDecided(b: Job, a: Job, from: int, to: int, exit: Option<ExitMarker>, alive: bool)
    requires IsRecovered(b, a, from, to, exit, alive)
    ensures IsDecided(b, a, from, to, exit, alive)
  {
    var at, now, clears :| IsRecovery(b, a, from, to, exit, alive, at, now, clears);
    RecoveryDecides(b, exit, alive, at, now, clears);
    assert from <= now <= to;
  }

  lemma PassRecoversSilent(before: JobTable, after: JobTable, from: int, to: int, host: Host)
    requires IsReconcilePass(before, after, from, to, host)
    ensures RecoversSilent(before, after, from, to, host)
  {
    forall id | id in before && IsSilent(before[id], from)
      ensures IsDecided(before[id], after[id], from, to, host.exits(id), host.alive(id))
    {
      RecoveryIsDecided(before[id], after[id], from, to, host.exits(id), host.alive(id));
    }
  }

  /** A heartbeat keeps its job out of every snapshot whose reading lies less than 20 s after it. */
  lemma HeartbeatProtects(s: State, w: WorkerId, t: State, i: SupervisorId, at: int)
    requires WorkerEnabled(s, w, BeatHeart) && SupervisorEnabled(t, i, SnapshotStale(at)) && at < s.clock + 20_000
    requires var id := s.workers[w].job; id in t.jobs && t.jobs[id] == WorkerNext(s, w, BeatHeart).jobs[id]
    ensures s.workers[w].job !in SupervisorNext(t, i, SnapshotStale(at)).supervisors[i].point.todo
  {
  }

  ghost predicate StillStale(before: JobTable, todo: map<JobId, Job>, stale: map<JobId, Job>) {
    todo.Keys <= stale.Keys && todo.Keys <= before.Keys && forall id | id in todo :: todo[id] == before[id]
  }

  lemma RecoverOneMore(before: JobTable, jobs: JobTable, next: JobTable, from: int, to: int, later: int,
                       stale: map<JobId, Job>, todo: map<JobId, Job>, job: JobId, host: Host)
    requires PassSoFar(before, jobs, from, to, stale.Keys - todo.Keys, host) && StillStale(before, todo, stale) && job in todo
    requires from <= to <= later && job in next && next == jobs[job := next[job]]
    requires IsRecovered(before[job], next[job], to, later, host.exits(job), host.alive(job))
    ensures PassSoFar(before, next, from, later, stale.Keys - (todo - {job}).Keys, host) && StillStale(before, todo - {job}, stale)
  {
    forall id | id in before && id in stale.Keys - (todo - {job}).Keys
      ensures IsRecovered(before[id], next[id], from, later, host.exits(id), host.alive(id))
    {
      RecoveredBy(before[id], next[id], if id == job then to else from, if id == job then later else to, from, later,
                  host.exits(id), host.alive(id));
    }
  }

  lemma RecoveredBy(seen: Job, after: Job, from: int, to: int, earlier: int, later: int, exit: Option<ExitMarker>, alive: bool)
    requires IsRecovered(seen, after, from, to, exit, alive) && earlier <= from && to <= later
    ensures IsRecovered(seen, after, earlier, later, exit, alive)
  {
    var at, now, clears :| IsRecovery(seen, after, from, to, exit, alive, at, now, clears);
    assert IsRecovery(seen, after, earlier, later, exit, alive, at, now, clears);
  }

  class Supervisor {
    const me: SupervisorId
    const db: Database

    constructor (id: SupervisorId, database: Database)
      ensures me == id && db == database
    {
      me, db := id, database;
    }

    ghost predicate At(p: TickPoint)
      reads db
    {
      db.Valid() && TickingAt(db.state, me) && db.state.supervisors[me].point == p
    }

    /** What this supervisor has done so far. */
    ghost function Done(): Tally
      reads db
    {
      Counted(db.steps, me)
    }

    /** One database call inside a tick. */
    method Act(a: SupervisorAction)
      requires db.Valid() && TickingAt(db.state, me) && IsTickAction(a)
      requires PointEnabled(db.state, db.state.supervisors[me].point, a)
      modifies db
      ensures db.Valid() && TickingAt(db.state, me)
      ensures db.state == old(PointNext(db.state, me, db.state.supervisors[me].point, a))
      ensures db.state.clock == old(db.state.clock) && Done() == Bump(old(Done()), a)
      ensures db.state.jobs == Apply(old(db.state.jobs), old(TickWrite(db.state, db.state.supervisors[me].point, a)))
    {
      TickFrame(db.state, me, a);
      CountStep(db.steps, BySupervisor(me, a), me);
      db.Call(BySupervisor(me, a));
    }

    /** A database call around the ticks. */
    method Move(a: SupervisorAction)
      requires db.Valid() && SupervisorEnabled(db.state, me, a) && !IsTickAction(a)
      modifies db
      ensures db.Valid() && me in db.state.supervisors && db.state == old(SupervisorNext(db.state, me, a))
      ensures db.state.clock == old(db.state.clock) && Done() == Bump(old(Done()), a)
    {
      LeaseFrame(db.state, me, a);
      CountStep(db.steps, BySupervisor(me, a), me);
      db.Call(BySupervisor(me, a));
    }

    /**
     A lease that is granted is on record with the reading it was computed from. Left alone, it is granted exactly
     if there was none, or it was this supervisor's own, or it had run out at that reading.
     */
    method AcquireLease(ghost quiet: bool) returns (hasLease: bool, ghost reading: int)
      requires db.Valid() && me in db.state.supervisors && db.state.supervisors[me].Asleep?
      modifies db
      ensures db.Valid() && me in db.state.supervisors && Done() == old(Done())
      ensures hasLease <==> TickingAt(db.state, me)
      ensures old(db.state.clock) <= reading <= db.state.clock
      ensures hasLease ==>
                && At(AtReconcile) && db.state.supervisors[me].grantedAt == reading
                && db.state.lease == Some(Lease(me, reading + LEASE_TTL_MS))
                && db.state.grants != [] && db.state.grants[|db.state.grants| - 1] == Grant(me, reading)
      ensures !hasLease ==> db.state.supervisors[me].Exited?
      ensures quiet ==>
                (hasLease <==> match old(db.state.lease)
                               case None => true
                               case Some(lease) => lease.owner == me || lease.expiresAt <= reading)
    {
      db.OthersAct(SupervisorProcess(me), quiet);
      reading := db.state.clock;
      Move(ReadClock);
      db.OthersAct(SupervisorProcess(me), quiet);
      Move(UpdateLease);
      if !db.state.supervisors[me].Ticking? {
        db.OthersAct(SupervisorProcess(me), quiet);
        Move(CreateLease);
      }
      hasLease := db.state.supervisors[me].Ticking?;
    }

    /** One iteration over the stale snapshot. */
    method RecoverNext(job: JobId, todo: map<JobId, Job>, host: Host, ghost quiet: bool)
      requires At(Recovering(todo)) && job in todo && todo.Keys <= db.state.jobs.Keys
      modifies db
      ensures At(Recovering(todo - {job})) && (todo - {job}).Keys <= db.state.jobs.Keys
      ensures Done() == old(Done()) && old(db.state.clock) <= db.state.clock && job in db.state.jobs
      ensures quiet ==> db.state.jobs == old(db.state.jobs)[job := db.state.jobs[job]]
      ensures quiet && todo[job] == old(db.state.jobs)[job] ==>
                IsRecovered(todo[job], db.state.jobs[job], old(db.state.clock), db.state.clock, host.exits(job), host.alive(job))
    {
      db.OthersAct(SupervisorProcess(me), quiet);
      var exit, alive := host.exits(job), host.alive(job);
      var decidedAt := db.state.clock;
      var clears: bool := *;
      db.OthersAct(SupervisorProcess(me), quiet);
      ghost var before := db.state.jobs[job];
      Act(RecoverJob(job, exit, alive, decidedAt, clears));
      assert before == todo[job] ==>
          IsRecovery(before, db.state.jobs[job], old(db.state.clock), db.state.clock, exit, alive, decidedAt, db.state.clock, clears);
    }

    /**
     reconcileStaleJobs works through the whole stale snapshot, whatever others do meanwhile. Left alone it
     rewrites exactly the stale jobs, each by one recovery of its own document.
     */
    method ReconcileStaleJobs(host: Host, ghost quiet: bool)
      requires At(AtReconcile)
      modifies db
      ensures At(AtEnqueue) && old(db.state.clock) <= db.state.clock
      ensures Done() == Bump(old(Done()), EndReconcile)
      ensures quiet ==> IsReconcilePass(old(db.state.jobs), db.state.jobs, old(db.state.clock), db.state.clock, host)
      ensures quiet ==> RecoversSilent(old(db.state.jobs), db.state.jobs, old(db.state.clock), db.state.clock, host)
    {
      var at := db.state.clock;
      db.OthersAct(SupervisorProcess(me), quiet);
      Act(SnapshotStale(at));
      ghost var before := db.state.jobs;
      ghost var stale := StaleJobs(before, at);
      var todo := StaleJobs(db.state.jobs, at);
      while todo != map[]
        invariant At(Recovering(todo)) && todo.Keys <= db.state.jobs.Keys
        invariant Done() == old(Done()) && at <= db.state.clock
        invariant quiet ==> StillStale(before, todo, stale)
        invariant quiet ==> PassSoFar(before, db.state.jobs, at, db.state.clock, stale.Keys - todo.Keys, host)
        decreases todo.Keys
      {
        var job :| job in todo;
        ghost var jobs, clock := db.state.jobs, db.state.clock;
        RecoverNext(job, todo, host, quiet);
        if quiet {
          RecoverOneMore(before, jobs, db.state.jobs, at, clock, db.state.clock, stale, todo, job, host);
        }
        todo := todo - {job};
      }
      Act(EndReconcile);
      if quiet { PassRecoversSilent(before, db.state.jobs, at, db.state.clock, host); }
    }

    /** One candidate is looked up and checked. */
    method CheckNext(cap: int, activeCount: int, now: int, todo: seq<JobId>, ghost quiet: bool) returns (blocked: bool)
      requires At(Scanning(cap, activeCount, now, todo)) && todo != [] && todo[0] in db.state.jobs
      modifies db
      ensures At(if blocked then Scanning(cap, activeCount, now, todo[1..]) else Selected(cap, activeCount, now, todo[0]))
      ensures Done() == old(Done()) && old(db.state.clock) <= db.state.clock
      ensures old(db.state.jobs).Keys <= db.state.jobs.Keys
      ensures quiet ==> db.state.jobs == old(db.state.jobs) && blocked == IsBlocked(db.state.jobs, todo[0])
    {
      db.OthersAct(SupervisorProcess(me), quiet);
      blocked := IsBlocked(db.state.jobs, todo[0]);
      Act(CheckCandidate);
    }

    /** The inner loop of the dispatch pass: the first candidate that is not blocked. */
    method SelectJob(cap: int, activeCount: int, now: int, found: seq<JobId>, ghost quiet: bool)
      returns (selected: Option<JobId>)
      requires At(Scanning(cap, activeCount, now, found))
      requires forall k | 0 <= k < |found| :: found[k] in db.state.jobs
      requires quiet ==> IsCandidateList(db.state.jobs, now, found)
      modifies db
      ensures selected.None? ==> At(Scanning(cap, activeCount, now, []))
      ensures selected.Some? ==> At(Selected(cap, activeCount, now, selected.value)) && selected.value in db.state.jobs
      ensures Done() == old(Done()) && old(db.state.clock) <= db.state.clock
      ensures quiet ==> db.state.jobs == old(db.state.jobs)
      ensures quiet && selected.None? ==> Stuck(db.state.jobs, now) && forall id | id in found :: IsHeldBack(db.state.jobs, id)
      ensures quiet && selected.Some? ==> IsFirstUnblocked(db.state.jobs, now, selected.value)
      ensures quiet && selected.Some? ==> !IsHeldBack(db.state.jobs, selected.value)
    {
      var k := 0;
      while k < |found|
        invariant 0 <= k <= |found| && At(Scanning(cap, activeCount, now, found[k..]))
        invariant old(db.state.jobs).Keys <= db.state.jobs.Keys && old(db.state.clock) <= db.state.clock
        invariant Done() == old(Done())
        invariant quiet ==> db.state.jobs == old(db.state.jobs)
        invariant quiet ==> forall l | 0 <= l < k :: IsBlocked(db.state.jobs, found[l]) && IsHeldBack(db.state.jobs, found[l])
      {
        BlockedIsHeldBack(db.state.jobs, found[k]);
        assert found[k..][0] == found[k] && found[k..][1..] == found[k + 1..];
        var blocked := CheckNext(cap, activeCount, now, found[k..], quiet);
        if !blocked {
          if quiet { FirstOfCandidates(db.state.jobs, now, found, k); }
          return Some(found[k]);
        }
        k := k + 1;
      }
      assert found[k..] == [];
      return None;
    }

    /** The worker is spawned and its process recorded with the job. */
    method SpawnAndRecord(cap: int, activeCount: int, now: int, job: JobId, worker: WorkerId, ghost quiet: bool)
      requires At(Spawning(cap, activeCount, now, job)) && job in db.state.jobs && worker !in db.state.workers
      modifies db
      ensures At(Dispatching(cap, activeCount + 1))
      ensures Done() == old(Done()) && old(db.state.clock) <= db.state.clock
      ensures quiet ==> db.state.jobs == old(db.state.jobs)[job := RecordWorker(old(db.state.jobs)[job], now)]
    {
      Act(SpawnWorker(worker));
      db.OthersAct(SupervisorProcess(me), quiet);
      Act(RecordSpawn);
    }

    /** Spawn a worker for the claimed job, or mark the job failed when that does not work. */
    method Spawn(cap: int, activeCount: int, now: int, job: JobId, spawned: bool, ghost quiet: bool)
      requires At(Spawning(cap, activeCount, now, job)) && job in db.state.jobs
      modifies db
      ensures At(Dispatching(cap, if spawned then activeCount + 1 else activeCount))
      ensures Done() == old(Done()) && old(db.state.clock) <= db.state.clock
      ensures quiet ==>
                db.state.jobs == old(db.state.jobs)[job := if spawned then RecordWorker(old(db.state.jobs)[job], now)
                                                           else FailToLaunch(old(db.state.jobs)[job])]
    {
      db.OthersAct(SupervisorProcess(me), quiet);
      if spawned {
        SpawnAndRecord(cap, activeCount, now, job, Fresh(db.state.workers.Keys), quiet);
      } else {
        Act(SpawnFails);
      }
    }

    /** The rest of a dispatch round: claim the selected job and spawn its worker. */
    method ClaimAndSpawn(cap: int, activeCount: int, now: int, job: JobId, host: Host, ghost quiet: bool) returns (taken: bool)
      requires At(Selected(cap, activeCount, now, job)) && job in db.state.jobs
      modifies db
      ensures taken ==> At(Dispatching(cap, if host.spawns(job) then activeCount + 1 else activeCount))
      ensures !taken ==> At(AtCleanup)
      ensures Done() == old(Done()) && old(db.state.clock) <= db.state.clock
      ensures quiet ==> taken == IsRunnable(old(db.state.jobs)[job], now)
      ensures quiet && taken ==> db.state.jobs == Launch(old(db.state.jobs), job, now, host.spawns(job))
    {
      db.OthersAct(SupervisorProcess(me), quiet);
      taken := IsRunnable(db.state.jobs[job], now);
      ghost var before := db.state.jobs;
      Act(ClaimJob);
      if taken {
        ghost var dispatched := Dispatch(before[job], now);
        assert db.state.jobs == before[job := dispatched];
        Spawn(cap, activeCount, now, job, host.spawns(job), quiet);
        assert before[job := dispatched][job := RecordWorker(dispatched, now)] == Launch(before, job, now, true);
        assert before[job := dispatched][job := FailToLaunch(dispatched)] == Launch(before, job, now, false);
      }
    }

    /**
     One round of the dispatch loop, with its own reading `now` of the clock; no job means that the loop breaks.
     */
    method DispatchOne(cap: int, activeCount: int, host: Host, ghost quiet: bool)
      returns (selected: Option<JobId>, ghost now: int)
      requires At(Dispatching(cap, activeCount)) && activeCount < cap
      modifies db
      ensures selected.Some? ==> At(Dispatching(cap, if host.spawns(selected.value) then activeCount + 1 else activeCount))
      ensures selected.None? ==> At(AtCleanup)
      ensures Done() == old(Done()) && now == old(db.state.clock) <= db.state.clock
      ensures quiet && selected.None? ==> db.state.jobs == old(db.state.jobs) && Stuck(db.state.jobs, now)
      ensures quiet && selected.Some? ==> IsFirstUnblocked(old(db.state.jobs), now, selected.value)
      ensures quiet && selected.Some? ==>
                db.state.jobs == Launch(old(db.state.jobs), selected.value, now, host.spawns(selected.value))
    {
      var reading := db.state.clock;
      now := reading;
      db.OthersAct(SupervisorProcess(me), quiet);
      var found := FindRunnable(db.state.jobs, reading);
      Act(FindCandidates(reading, found));
      selected := SelectJob(cap, activeCount, reading, found, quiet);
      if selected.None? {
        Act(EndDispatch);
        return;
      }
      var taken := ClaimAndSpawn(cap, activeCount, reading, selected.value, host, quiet);
      if !taken {
        selected := None;
      }
    }

    /** The count and the rounds of a pass. */
    method DispatchRounds(cap: int, rounds: nat, host: Host, ghost quiet: bool)
      returns (done: bool, ghost claimed: seq<JobId>, ghost times: seq<int>, ghost tables: seq<JobTable>, ghost last: int)
      requires At(AtEnqueue)
      modifies db
      ensures db.Valid() && TickingAt(db.state, me) && (done ==> At(AtCleanup))
      ensures Done() == Bump(old(Done()), CountActive(cap))
      ensures quiet ==> IsDispatchPass(old(db.state.jobs), db.state.jobs, claimed, times, tables, host)
      ensures quiet ==> AreReadings(old(db.state.clock), times + [last]) && last <= db.state.clock
      ensures quiet && done ==> |Active(db.state.jobs)| >= cap || Stuck(db.state.jobs, last)
      ensures quiet && rounds > |Waiting(old(db.state.jobs))| ==> done
    {
      db.OthersAct(SupervisorProcess(me), quiet);
      var activeCount := |Active(db.state.jobs)|;
      Act(CountActive(cap));
      var left := rounds;
      claimed, times, tables := [], [], [db.state.jobs];
      last := old(db.state.clock);
      while activeCount < cap && left > 0
        invariant At(Dispatching(cap, activeCount)) && Done() == Bump(old(Done()), CountActive(cap))
        invariant quiet ==> activeCount == |Active(db.state.jobs)|
        invariant quiet ==> IsDispatchPass(old(db.state.jobs), db.state.jobs, claimed, times, tables, host)
        invariant quiet ==> AreReadings(old(db.state.clock), times + [last]) && last <= db.state.clock
        invariant quiet ==> |claimed| + left == rounds && |Waiting(db.state.jobs)| + |claimed| == |Waiting(old(db.state.jobs))|
        decreases left
      {
        left := left - 1;
        ghost var before, previous := db.state.jobs, last;
        var selected;
        selected, last := DispatchOne(cap, activeCount, host, quiet);
        if quiet {
          LaterReading(old(db.state.clock), times, previous, last, selected.Some?);
        }
        if selected.None? {
          return true, claimed, times, tables, last;
        }
        if quiet {
          ExtendPass(old(db.state.jobs), before, db.state.jobs, claimed, times, tables, selected.value, last, host);
          ClaimEffect(before, selected.value, last, host.spawns(selected.value));
          claimed, times, tables := claimed + [selected.value], times + [last], tables + [db.state.jobs];
        }
        if host.spawns(selected.value) {
          activeCount := activeCount + 1;
        }
      }
      if activeCount >= cap {
        Act(EndDispatch);
        return true, claimed, times, tables, last;
      }
      return false, claimed, times, tables, last;
    }

    /**
     dispatchRunnableJobs. The supervisor may stop at any round: `rounds` says how many it gets. Left alone
     (`quiet`), with the clock running on, each round claims the first job that is unblocked at its own reading, the
     pass needs at most one round more than there are queued or retrying jobs, and it ends only at the cap or when
     it is stuck at its `last` reading. Below the cap, and with at most 25 jobs that may run, every one of them that is
     left is held back by a job in its workspace.
     */
    method DispatchRunnableJobs(cap: int, rounds: nat, host: Host, ghost quiet: bool)
      returns (done: bool, ghost claimed: seq<JobId>, ghost times: seq<int>, ghost tables: seq<JobTable>, ghost last: int)
      requires At(AtEnqueue)
      modifies db
      ensures db.Valid() && TickingAt(db.state, me) && (done ==> At(AtCleanup))
      ensures Done() == Bump(old(Done()), CountActive(cap))
      ensures quiet ==> IsDispatchPass(old(db.state.jobs), db.state.jobs, claimed, times, tables, host)
      ensures quiet ==> AreReadings(old(db.state.clock), times + [last]) && last <= db.state.clock
      ensures quiet && done ==> |Active(db.state.jobs)| >= cap || Stuck(db.state.jobs, last)
      ensures quiet && done ==> NothingLeft(db.state.jobs, last, cap)
      ensures quiet && rounds > |Waiting(old(db.state.jobs))| ==> done
    {
      done, claimed, times, tables, last := DispatchRounds(cap, rounds, host, quiet);
      NothingIsLeft(db.state.jobs, last, cap);
    }

    method FinishTick()
      requires db.Valid() && TickingAt(db.state, me)
      modifies db
      ensures db.Valid() && me in db.state.supervisors && db.state.supervisors[me].Asleep?
      ensures Done() == Bump(old(Done()), EndTick)
    {
      Move(EndTick);
    }

    /** The part of a tick modelled here: one recovery pass and one dispatch pass. */
    method Tick(cap: int, rounds: nat, host: Host)
      requires At(AtReconcile)
      modifies db
      ensures db.Valid() && me in db.state.supervisors && db.state.supervisors[me].Asleep?
      ensures Done() == Ticks(old(Done()), 1)
    {
      TickBumps(Done(), cap);
      ReconcileStaleJobs(host, false);
      var _, _, _, _, _ := DispatchRunnableJobs(cap, rounds, host, false);
      FinishTick();
    }

    /**
     acquireLease and the tick after it: one recovery pass and one dispatch pass. Schedules and autoflows create
     jobs: that is among what others do.
     */
    method LeaseAndTick(cap: int, rounds: nat, host: Host) returns (alive: bool)
      requires db.Valid() && me in db.state.supervisors && db.state.supervisors[me].Asleep?
      modifies db
      ensures db.Valid() && me in db.state.supervisors
      ensures if alive then db.state.supervisors[me].Asleep? else db.state.supervisors[me].Exited?
      ensures Done() == if alive then Ticks(old(Done()), 1) else old(Done())
    {
      var hasLease, _ := AcquireLease(false);
      alive := hasLease;
      if alive {
        Tick(cap, rounds, host);
      }
    }

    /**
     The supervisor loop, for any number of ticks: as long as it keeps its lease each tick is one recovery pass and
     one dispatch pass. When the whole history kept its ticks within their leases, the jobs it leaves behind are
     free of workspace conflicts.
     */
    method Run(cap: int, ticks: nat, rounds: nat, hosts: nat -> Host) returns (completed: nat)
      requires db.Valid() && me in db.state.supervisors && db.state.supervisors[me].Asleep?
      modifies db
      ensures db.Valid() && me in db.state.supervisors
      ensures completed <= ticks && Done() == Ticks(old(Done()), completed)
      ensures if completed == ticks then db.state.supervisors[me].Asleep? else db.state.supervisors[me].Exited?
      ensures Init(db.start) && TimelyRun(db.start, db.steps) ==> ConflictFree(db.state.jobs, Active(db.state.jobs))
    {
      var alive := true;
      completed := 0;
      while alive && completed < ticks
        invariant db.Valid() && me in db.state.supervisors && completed <= ticks
        invariant Done() == Ticks(old(Done()), completed)
        invariant if alive then db.state.supervisors[me].Asleep? else db.state.supervisors[me].Exited? && completed < ticks
        decreases ticks - completed, alive
      {
        db.OthersAct(SupervisorProcess(me), false);
        alive := LeaseAndTick(cap, rounds, hosts(completed));
        if alive { completed := completed + 1; }
      }
      if Init(db.start) && TimelyRun(db.start, db.steps) {
        InitInvariants(db.start);
        ExclusionRun(db.start, db.steps);
      }
    }
  }

  lemma TickBumps(t: Tally, cap: int)
    ensures Bump(Bump(Bump(t, EndReconcile), CountActive(cap)), EndTick) == Ticks(t, 1)
  {
  }

  function Ticks(before: Tally, n: nat): Tally {
    Tally(before.ticks + n, before.reconciles + n, before.passes + n)
  }

  lemma InitInvariants(s: State)
    requires Init(s)
    ensures LeaseInv(s) && ExclusionInv(s)
  {
  }

  /** A claim takes exactly one job out of the waiting ones, whatever becomes of its worker. */
  lemma ClaimEffect(jobs: JobTable, job: JobId, now: int, spawned: bool)
    requires job in jobs && IsRunnable(jobs[job], now)
    ensures |Waiting(Launch(jobs, job, now, spawned))| + 1 == |Waiting(jobs)|
    ensures |Runnable(Launch(jobs, job, now, spawned), now)| + 1 == |Runnable(jobs, now)|
    ensures |Active(Launch(jobs, job, now, spawned))| == |Active(jobs)| + if spawned then 1 else 0
  {
    assert Waiting(Launch(jobs, job, now, spawned)) == Waiting(jobs) - {job};
    assert Runnable(Launch(jobs, job, now, spawned), now) == Runnable(jobs, now) - {job};
    assert Active(Launch(jobs, job, now, spawned)) == Active(jobs) + if spawned then {job} else {};
  }
}
