/** The candidate limit of the dispatch pass: when blocked jobs hide a job that could be dispatched. */
module Starvation {
  import opened Wrappers
  import opened Jobs
  import opened Concurrency
  import opened SupervisorCode

  lemma NotBeforeTransitive(a: Job, b: Job, c: Job)
    requires !SortsBefore(a, b) && !SortsBefore(b, c)
    ensures !SortsBefore(a, c)
  {
  }

  lemma Minimal(jobs: JobTable, ids: set<JobId>) returns (best: JobId)
    requires ids <= jobs.Keys && ids != {}
    ensures best in ids && forall x | x in ids :: !SortsBefore(jobs[x], jobs[best])
    decreases ids
  {
    best :| best in ids;
    if ids != {best} {
      var other := Minimal(jobs, ids - {best});
      if SortsBefore(jobs[other], jobs[best]) {
        best := other;
      } else {
        forall x | x in ids
          ensures !SortsBefore(jobs[x], jobs[best])
        {
          if x != best { NotBeforeTransitive(jobs[x], jobs[other], jobs[best]); }
        }
      }
    }
  }

  /** `least` lists the first jobs of `ids` in sort order. */
  ghost predicate AreLeast(jobs: JobTable, ids: set<JobId>, least: seq<JobId>)
    requires ids <= jobs.Keys
  {
    && (forall k | 0 <= k < |least| :: least[k] in ids)
    && (forall k, l | 0 <= k < l < |least| :: least[k] != least[l] && !SortsBefore(jobs[least[l]], jobs[least[k]]))
    && (forall id, k | id in ids && id !in least && 0 <= k < |least| :: !SortsBefore(jobs[id], jobs[least[k]]))
  }

  lemma {:induction false} Least(jobs: JobTable, ids: set<JobId>, n: nat) returns (least: seq<JobId>)
    requires ids <= jobs.Keys && n <= |ids|
    ensures AreLeast(jobs, ids, least) && |least| == n
    decreases n
  {
    least := [];
    if n > 0 {
      var best := Minimal(jobs, ids);
      var rest := Least(jobs, ids - {best}, n - 1);
      least := [best] + rest;
      assert least[1..] == rest;
      forall k | 1 <= k < |least|
        ensures least[k] == rest[k - 1]
      {
      }
    }
  }

  /** Enough blocked jobs that do not sort after `x` crowd it out. */
  ghost predicate CrowdsOut(jobs: JobTable, now: int, x: JobId, crowd: set<JobId>) {
    && IsFirstUnblocked(jobs, now, x)
    && crowd <= Runnable(jobs, now) && |crowd| == CANDIDATE_LIMIT
    && forall s | s in crowd :: IsBlocked(jobs, s) && !SortsBefore(jobs[x], jobs[s])
  }

  function Blocked(jobs: JobTable, now: int): set<JobId> {
    set id | id in Runnable(jobs, now) && IsBlocked(jobs, id)
  }

  function Unblocked(jobs: JobTable, now: int): set<JobId> {
    set id | id in Runnable(jobs, now) && !IsBlocked(jobs, id)
  }

  lemma CrowdFillsTheList(jobs: JobTable, now: int, x: JobId, crowd: set<JobId>, least: seq<JobId>, id: JobId, k: nat)
    requires CrowdsOut(jobs, now, x, crowd) && AreLeast(jobs, Blocked(jobs, now), least) && |least| == CANDIDATE_LIMIT
    requires id in Runnable(jobs, now) && !IsBlocked(jobs, id) && k < |least|
    ensures !SortsBefore(jobs[id], jobs[least[k]])
  {
    if SortsBefore(jobs[id], jobs[least[k]]) {
      var all := set l | 0 <= l < |least| :: least[l];
      forall s | s in crowd
        ensures s in all && s != least[k]
      {
        NotBeforeTransitive(jobs[id], jobs[x], jobs[s]);
        if !SortsBefore(jobs[s], jobs[least[k]]) {
          NotBeforeTransitive(jobs[id], jobs[s], jobs[least[k]]);
        }
        assert s in Blocked(jobs, now);
        assert s in least;
      }
      DistinctCount(least);
      SubsetSize(crowd + {least[k]}, all);
    }
  }

  /**
   Main result: a pass may end stuck although an unblocked job is runnable exactly if as many blocked runnable jobs
   as the query returns do not sort after the first unblocked one.
   */
  lemma StuckDespiteUnblockedIff(jobs: JobTable, now: int)
    ensures Stuck(jobs, now) && (exists id | id in Runnable(jobs, now) :: !IsBlocked(jobs, id)) <==>
            exists x, crowd :: CrowdsOut(jobs, now, x, crowd)
  {
    if Stuck(jobs, now) && exists id | id in Runnable(jobs, now) :: !IsBlocked(jobs, id) {
      var x, crowd := StuckIsCrowded(jobs, now);
    }
    if exists x, crowd :: CrowdsOut(jobs, now, x, crowd) {
      var x, crowd :| CrowdsOut(jobs, now, x, crowd);
      CrowdedIsStuck(jobs, now, x, crowd);
    }
  }

  lemma StuckIsCrowded(jobs: JobTable, now: int) returns (x: JobId, crowd: set<JobId>)
    requires Stuck(jobs, now) && exists id | id in Runnable(jobs, now) :: !IsBlocked(jobs, id)
    ensures CrowdsOut(jobs, now, x, crowd)
  {
    var found :| IsCandidateList(jobs, now, found) && forall k | 0 <= k < |found| :: IsBlocked(jobs, found[k]);
    var free: JobId :| free in Runnable(jobs, now) && !IsBlocked(jobs, free);
    assert free in Unblocked(jobs, now);
    x := Minimal(jobs, Unblocked(jobs, now));
    assert x !in found;
    crowd := set k | 0 <= k < |found| :: found[k];
    DistinctCount(found);
  }

  lemma CrowdedIsStuck(jobs: JobTable, now: int, x: JobId, crowd: set<JobId>)
    requires CrowdsOut(jobs, now, x, crowd)
    ensures Stuck(jobs, now) && x in Runnable(jobs, now) && !IsBlocked(jobs, x)
  {
    var blocked := Blocked(jobs, now);
    assert crowd <= blocked;
    SubsetSize(crowd, blocked);
    var least := Least(jobs, blocked, CANDIDATE_LIMIT);
    forall id, k | id in Runnable(jobs, now) && id !in least && 0 <= k < |least|
      ensures !SortsBefore(jobs[id], jobs[least[k]])
    {
      if !IsBlocked(jobs, id) { CrowdFillsTheList(jobs, now, x, crowd, least, id, k); }
    }
    forall k | 0 <= k < |least|
      ensures least[k] in Runnable(jobs, now) && IsBlocked(jobs, least[k])
    {
      assert least[k] in blocked;
    }
    assert IsCandidateList(jobs, now, least);
  }

  // ---- an example -----------------------------------------------------------------------

  /** Job 0 runs in workspace 0, jobs 1 to 25 wait for that workspace, and job 26 needs no workspace. */
  function Example(id: JobId): Job {
    Job(if id == 0 then Running else Queued, if id == 0 then RunRunning else RunQueued, 0, 2,
        if id <= CANDIDATE_LIMIT then Some(0) else None, id <= CANDIDATE_LIMIT, false, false, Some(0), None, id, None, None, 60, 0)
  }

  function Examples(): JobTable {
    map id | 0 <= id <= CANDIDATE_LIMIT + 1 :: Example(id)
  }

  lemma ExampleWaits(id: JobId)
    requires 1 <= id <= CANDIDATE_LIMIT + 1
    ensures id in Runnable(Examples(), 0) && (IsBlocked(Examples(), id) <==> id <= CANDIDATE_LIMIT)
  {
    if id <= CANDIDATE_LIMIT { assert IsRival(Examples(), id, 0); }
  }

  lemma ExampleOrder(a: JobId, b: JobId)
    ensures SortsBefore(Example(a), Example(b)) ==> a == 0 || a < b
  {
  }

  /** The pass ends without a dispatch although job 26 could be dispatched. */
  lemma BlockedJobsHideAnother()
    ensures Stuck(Examples(), 0) && CANDIDATE_LIMIT + 1 in Runnable(Examples(), 0) && !IsBlocked(Examples(), CANDIDATE_LIMIT + 1)
  {
    var jobs := Examples();
    var found := seq(CANDIDATE_LIMIT, k requires 0 <= k < CANDIDATE_LIMIT => k + 1);
    ExampleWaits(CANDIDATE_LIMIT + 1);
    forall k | 0 <= k < |found|
      ensures found[k] in Runnable(jobs, 0) && IsBlocked(jobs, found[k])
    {
      ExampleWaits(found[k]);
    }
    forall id: JobId | 1 <= id <= CANDIDATE_LIMIT
      ensures id in found
    {
      assert found[id - 1] == id;
    }
    forall id, k | id in Runnable(jobs, 0) && 0 <= k < |found| && (id !in found || id > found[k])
      ensures !SortsBefore(jobs[id], jobs[found[k]])
    {
      assert id > found[k];
      ExampleOrder(id, found[k]);
    }
    assert IsCandidateList(jobs, 0, found);
  }
}
