/**
 Why the ticks must be timely: a supervisor that stalls inside its tick until its lease has run out claims a job
 beside the next supervisor. Nothing fences its write, so two jobs share a workspace and the cap is exceeded.
 */
module Overlap {
  import opened Wrappers
  import opened Jobs
  import opened Engine
  import opened Exclusion
  import opened Concurrency
  import opened Scenarios

  /** Ticks may be late, and every cap that is read is at most 1. */
  const LATE := Terms(false, 1)

  lemma NothingBlocks(jobs: JobTable, id: JobId)
    requires Active(jobs) == {} && id in jobs
    ensures !IsBlocked(jobs, id)
  {
    forall other | other in jobs
      ensures !IsRival(jobs, id, other)
    {
      assert other !in Active(jobs);
    }
  }

  /** From the start of a tick to the selection of the first candidate, while no job is active. */
  lemma Choose(s: State, i: SupervisorId, found: seq<JobId>) returns (t: State)
    requires Reachable(LATE, s) && TickingAt(s, i) && s.supervisors[i].point == AtReconcile && Active(s.jobs) == {}
    requires found != [] && found[0] in s.jobs && IsCandidateList(s.jobs, s.clock, found)
    ensures t == Point(s, i, Selected(1, 0, s.clock, found[0])) && Reachable(LATE, t)
  {
    t := OpenDispatch(LATE, s, i);
    NothingBlocks(s.jobs, found[0]);
    t := Select(LATE, t, i, 0, found);
    assert t.supervisors == Point(s, i, Selected(1, 0, s.clock, found[0])).supervisors;
  }

  /** A job for workspace 0; with a slot it sorts behind one without. */
  function Waits(slot: Option<int>): Job {
    NewJob(None, Some(0), true, false, 60, 0, slot, 0)
  }

  lemma ReachJob(s: State, id: JobId, slot: Option<int>) returns (t: State)
    requires Reachable(LATE, s) && id !in s.jobs
    ensures t == PutJob(s, id, Waits(slot)) && Reachable(LATE, t)
  {
    assert IsNewJob(Waits(slot));
    Reach(LATE, s, ByWeb(0, Enqueue(id, Waits(slot))));
    t := Next(s, ByWeb(0, Enqueue(id, Waits(slot))));
  }

  /** Supervisor 0 has selected job 0 and stalls; meanwhile job 1 arrives and the lease runs out. */
  lemma Stall() returns (s: State)
    ensures Reachable(LATE, s) && s.clock == 20_000 && s.supervisors == map[0 := Ticking(0, Selected(1, 0, 0, 0))]
    ensures s.lease == Some(Lease(0, 20_000)) && s.jobs == map[0 := Waits(Some(5)), 1 := Waits(None)]
  {
    s := State(0, None, map[], map[], map[], map[], []);
    Begin(LATE, s);
    s := ReachJob(s, 0, Some(5));
    s := Grab(LATE, s, 0);
    assert s.jobs == map[0 := Waits(Some(5))] && Active(s.jobs) == {};
    assert IsCandidateList(s.jobs, 0, [0]);
    s := Choose(s, 0, [0]);
    s := ReachJob(s, 1, None);
    Reach(LATE, s, Wait(20_000));
    s := Next(s, Wait(20_000));
  }

  /** Supervisor 1 takes the lease and selects job 1, which sorts first. */
  lemma TakeOver() returns (s: State)
    ensures Reachable(LATE, s) && s.jobs == map[0 := Waits(Some(5)), 1 := Waits(None)]
    ensures s.supervisors == map[0 := Ticking(0, Selected(1, 0, 0, 0)), 1 := Ticking(20_000, Selected(1, 0, 20_000, 1))]
  {
    var r := Stall();
    assert Active(r.jobs) == {};
    assert SortsBefore(r.jobs[1], r.jobs[0]);
    assert IsCandidateList(r.jobs, 20_000, [1, 0]);
    s := Grab(LATE, r, 1);
    s := Choose(s, 1, [1, 0]);
  }

  /** Supervisor 1 claims job 1, then supervisor 0 goes on and claims job 0. */
  lemma BothClaim() returns (s: State)
    ensures Reachable(LATE, s) && s.jobs == map[0 := Dispatch(Waits(Some(5)), 0), 1 := Dispatch(Waits(None), 20_000)]
  {
    s := TakeOver();
    s := Claim(LATE, s, 1, 0, 20_000, 1);
    s := Claim(LATE, s, 0, 0, 0, 0);
  }

  /**
   Main result: without timely ticks, workspace exclusion and the concurrency cap both fail. Every cap read in the run
   is 1, and two active jobs claim the same workspace.
   */
  lemma LateTicksBreakExclusionAndCap()
    ensures exists start, steps ::
              && Init(start) && Legal(start, steps) && CapsWithin(steps, 1)
              && var jobs := Exec(start, steps).jobs;
                 !ConflictFree(jobs, Active(jobs)) && |Active(jobs)| > 1
  {
    var s := BothClaim();
    assert 0 in Active(s.jobs) && 1 in Active(s.jobs);
    assert ClaimsWorkspace(s.jobs[0]) && ClaimsWorkspace(s.jobs[1]) && s.jobs[0].workspace == s.jobs[1].workspace;
    assert Active(s.jobs) == {0, 1};
    var start, steps :| RunTo(LATE, start, steps, s);
  }
}
