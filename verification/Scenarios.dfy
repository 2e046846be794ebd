/** Building concrete runs of the protocol step by step, under terms that every step of the run keeps. */
module Scenarios {
  import opened Wrappers
  import opened Jobs
  import opened Engine
  import opened LeaseSafety
  import opened Exclusion
  import opened Concurrency
  import opened Databases

  /** Whether recoveries and claims are written within the lease, and the largest cap that is read. */
  datatype Terms = Terms(timely: bool, cap: int)

  ghost predicate RunTo(terms: Terms, start: State, steps: seq<Step>, s: State) {
    && Init(start) && Legal(start, steps) && Exec(start, steps) == s
    && (terms.timely ==> TimelyRun(start, steps)) && CapsWithin(steps, terms.cap)
  }

  ghost predicate Reachable(terms: Terms, s: State) {
    exists start, steps :: RunTo(terms, start, steps, s)
  }

  predicate Keeps(terms: Terms, s: State, step: Step) {
    (terms.timely ==> Timely(s, step)) && (step.BySupervisor? && step.act.CountActive? ==> step.act.cap <= terms.cap)
  }

  lemma {:induction false} TimelyAppend(s: State, steps: seq<Step>, step: Step)
    requires Legal(s, steps) && TimelyRun(s, steps) && Enabled(Exec(s, steps), step) && Timely(Exec(s, steps), step)
    ensures Legal(s, steps + [step]) && TimelyRun(s, steps + [step])
    decreases |steps|
  {
    if steps == [] {
      assert steps + [step] == [step] && [step][1..] == [];
    } else {
      assert (steps + [step])[1..] == steps[1..] + [step];
      TimelyAppend(Next(s, steps[0]), steps[1..], step);
    }
  }

  lemma Begin(terms: Terms, s: State)
    requires Init(s)
    ensures Reachable(terms, s)
  {
    assert RunTo(terms, s, [], s);
  }

  lemma Reach(terms: Terms, s: State, step: Step)
    requires Reachable(terms, s) && Enabled(s, step) && Keeps(terms, s, step)
    ensures Reachable(terms, Next(s, step))
  {
    var start, steps :| RunTo(terms, start, steps, s);
    assert Legal(Next(s, step), [step][1..]) && Exec(s, [step]) == Next(s, step);
    LegalAppend(start, steps, [step]);
    if terms.timely { TimelyAppend(start, steps, step); }
    assert RunTo(terms, start, steps + [step], Next(s, step));
  }

  lemma ReachTick(terms: Terms, s: State, i: SupervisorId, a: SupervisorAction) returns (t: State)
    requires Reachable(terms, s) && TickingAt(s, i) && IsTickAction(a) && PointEnabled(s, s.supervisors[i].point, a)
    requires Keeps(terms, s, BySupervisor(i, a))
    ensures t == PointNext(s, i, s.supervisors[i].point, a) && Reachable(terms, t)
  {
    Reach(terms, s, BySupervisor(i, a));
    t := Next(s, BySupervisor(i, a));
  }

  lemma Wake(terms: Terms, s: State, i: SupervisorId) returns (t: State)
    requires Reachable(terms, s) && i !in s.supervisors
    ensures t == MoveTo(s, i, Acquiring(s.clock)) && Reachable(terms, t)
  {
    Reach(terms, s, BySupervisor(i, Boot));
    t := SupervisorNext(s, i, Boot);
    Reach(terms, t, BySupervisor(i, ReadClock));
    t := SupervisorNext(t, i, ReadClock);
    assert t.supervisors == s.supervisors[i := Acquiring(s.clock)];
  }

  /** A new supervisor gets a lease that was never there, or has run out. */
  lemma Grab(terms: Terms, s: State, i: SupervisorId) returns (t: State)
    requires Reachable(terms, s) && i !in s.supervisors && (s.lease.None? || s.lease.value.expiresAt <= s.clock)
    ensures t == GrantLease(s, i, s.clock) && Reachable(terms, t)
  {
    t := Wake(terms, s, i);
    Reach(terms, t, BySupervisor(i, UpdateLease));
    t := SupervisorNext(t, i, UpdateLease);
    if s.lease.None? {
      Reach(terms, t, BySupervisor(i, CreateLease));
      t := SupervisorNext(t, i, CreateLease);
    }
    assert t.supervisors == GrantLease(s, i, s.clock).supervisors;
  }

  /** From the start of a tick to the dispatch loop, while no job is active. */
  lemma OpenDispatch(terms: Terms, s: State, i: SupervisorId) returns (t: State)
    requires Reachable(terms, s) && TickingAt(s, i) && s.supervisors[i].point == AtReconcile && Active(s.jobs) == {}
    ensures t == Point(s, i, Dispatching(terms.cap, 0)) && Reachable(terms, t)
  {
    assert StaleJobs(s.jobs, s.clock) == map[] by {
      assert forall id | id in s.jobs :: id in Active(s.jobs) <==> IsActive(s.jobs[id]);
    }
    t := ReachTick(terms, s, i, SnapshotStale(s.clock));
    t := ReachTick(terms, t, i, EndReconcile);
    t := ReachTick(terms, t, i, CountActive(terms.cap));
    assert t.supervisors == Point(s, i, Dispatching(terms.cap, 0)).supervisors;
  }

  /** A round of the dispatch loop up to the selection of its first candidate. */
  lemma Select(terms: Terms, s: State, i: SupervisorId, count: int, found: seq<JobId>) returns (t: State)
    requires Reachable(terms, s) && TickingAt(s, i) && s.supervisors[i].point == Dispatching(terms.cap, count)
    requires count < terms.cap && found != [] && found[0] in s.jobs
    requires IsCandidateList(s.jobs, s.clock, found) && !IsBlocked(s.jobs, found[0])
    ensures t == Point(s, i, Selected(terms.cap, count, s.clock, found[0])) && Reachable(terms, t)
  {
    t := ReachTick(terms, s, i, FindCandidates(s.clock, found));
    t := ReachTick(terms, t, i, CheckCandidate);
    assert t.supervisors == Point(s, i, Selected(terms.cap, count, s.clock, found[0])).supervisors;
  }

  lemma Claim(terms: Terms, s: State, i: SupervisorId, count: int, now: int, job: JobId) returns (t: State)
    requires Reachable(terms, s) && TickingAt(s, i) && s.supervisors[i].point == Selected(terms.cap, count, now, job)
    requires job in s.jobs && IsRunnable(s.jobs[job], now) && (terms.timely ==> Live(s, i))
    ensures t == PutJob(Point(s, i, Spawning(terms.cap, count, now, job)), job, Dispatch(s.jobs[job], now))
    ensures Reachable(terms, t)
  {
    t := ReachTick(terms, s, i, ClaimJob);
  }
}
