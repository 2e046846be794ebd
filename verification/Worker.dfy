/**
 The worker's own code: it claims its job by compare-and-set, runs the command under a heartbeat and a timeout,
 and finalizes the job from what it read last. Between two database calls any other actor may act.
 */
module WorkerCode {
  import opened Wrappers
  import opened Jobs
  import opened Engine
  import opened Databases

  /** How a call of run ended. */
  datatype End = NotClaimed | LaunchFailed | StillExecuting | Finished(outcome: RunStatus)

  /** What the event loop delivers next. */
  datatype Event = Heartbeat | TimeoutFires | ChildEnds(exitCode: Option<int>)

  /** The job after a heartbeat differs from `j` in its heartbeat at most. */
  predicate SameButHeartbeat(j: Job, k: Job) {
    j.(heartbeatAt := None) == k.(heartbeatAt := None)
  }

  /** The other documents are untouched and the job differs in its heartbeat at most. */
  ghost predicate OnlyBeats(before: JobTable, after: JobTable, job: JobId) {
    job in before && job in after && after == before[job := after[job]] && SameButHeartbeat(before[job], after[job])
  }

  /**
   What one undisturbed attempt, claimed and finished at the two times, makes of a job: the attempt counts, success
   and a cancellation are final, and an unsuccessful attempt is retried after the delay exactly if attempts are left
   and no cancellation is requested.
   */
  ghost predicate IsAttempt(before: Job, after: Job, outcome: RunStatus, claimedAt: int, finishedAt: int) {
    && before.status == Dispatched && claimedAt <= finishedAt
    && after.startedAt == Some(claimedAt)
    && after.attemptCount == before.attemptCount + 1
    && after == before.(status := after.status, run := after.run, attemptCount := after.attemptCount,
                        nextAttemptAt := after.nextAttemptAt, heartbeatAt := after.heartbeatAt, startedAt := after.startedAt)
    && (outcome == RunCompleted <==> after.status == Completed)
    && (outcome == RunKilled <==> after.status == Canceled)
    && (outcome == RunKilled ==> before.cancelRequested)
    && (after.status == Retrying <==>
          (outcome == RunFailed || outcome == RunTimeout) && after.attemptCount < after.maxAttempts && !before.cancelRequested)
    && (after.status == Retrying ==> after.run == RunRetrying && after.nextAttemptAt == Some(finishedAt + 15_000))
    && (after.status != Retrying ==> after.nextAttemptAt == before.nextAttemptAt)
    && (after.status in {Completed, Canceled, Failed, Retrying})
    && (after.status != Retrying ==> after.run == outcome && after.heartbeatAt == Some(finishedAt))
  }

  /** `j` is the job claimed at that time, at most kept alive since, and a kill by the user has a reason. */
  predicate Underway(before: Job, j: Job, claimedAt: int, killedBy: KillReason) {
    before.status == Dispatched && SameButHeartbeat(Start(before, claimedAt), j) && (killedBy == ByUser ==> before.cancelRequested)
  }

  lemma FinalizeIsAttempt(before: Job, doc: Job, seen: Job, killedBy: KillReason, fallback: RunStatus, claimedAt: int,
                          now: int, clears: bool)
    requires Underway(before, doc, claimedAt, killedBy) && Underway(before, seen, claimedAt, killedBy) && claimedAt <= now
    requires fallback == RunCompleted || fallback == RunFailed
    ensures IsAttempt(before, Finalize(doc, seen, Outcome(killedBy, fallback), now, clears), Outcome(killedBy, fallback),
                      claimedAt, now)
    ensures var after := Finalize(doc, seen, Outcome(killedBy, fallback), now, clears);
            && (after.status == Canceled <==> killedBy == ByUser)
            && (after.status == Completed <==> killedBy == NotKilled && fallback == RunCompleted)
            && (after.run == RunTimeout <==> killedBy == ByTimeout && after.status == Failed)
            && (after.status == Retrying ==> after.heartbeatAt == if clears then None else doc.heartbeatAt)
  {
  }

  // ---- what the events decide -----------------------------------------------------------

  /** The exit code with which the child ends first, if it ends among the events. */
  function FirstEnd(events: seq<Event>): Option<Option<int>> {
    if events == [] then None
    else if events[0].ChildEnds? then Some(events[0].exitCode)
    else FirstEnd(events[1..])
  }

  lemma {:induction false} FirstEndIff(events: seq<Event>)
    ensures FirstEnd(events).Some? <==> exists k | 0 <= k < |events| :: events[k].ChildEnds?
  {
    if events != [] && !events[0].ChildEnds? {
      FirstEndIff(events[1..]);
      if FirstEnd(events[1..]).Some? {
        var k :| 0 <= k < |events[1..]| && events[1..][k].ChildEnds?;
        assert events[k + 1].ChildEnds?;
      }
    }
  }

  /** Who killed the child before its end: a timeout, or a heartbeat that saw a cancellation, whichever came last. */
  function KillAfter(events: seq<Event>, cancelled: bool, killedBy: KillReason): KillReason {
    if events == [] || events[0].ChildEnds? then killedBy
    else KillAfter(events[1..], cancelled, KilledBy(events[0], cancelled, killedBy))
  }

  function KilledBy(event: Event, cancelled: bool, killedBy: KillReason): KillReason {
    match event
    case Heartbeat => if cancelled then ByUser else killedBy
    case TimeoutFires => ByTimeout
    case ChildEnds(_) => killedBy
  }

  /** The run status that the events lead to once the child has ended. */
  function OutcomeOf(events: seq<Event>, cancelled: bool, killedBy: KillReason): RunStatus
    requires FirstEnd(events).Some?
  {
    Outcome(KillAfter(events, cancelled, killedBy), if FirstEnd(events).value == Some(0) then RunCompleted else RunFailed)
  }

  /** A run is completed exactly if the child ends with code 0 and nothing killed it before. */
  lemma {:induction false} CompletedIff(events: seq<Event>, cancelled: bool)
    requires FirstEnd(events).Some?
    ensures OutcomeOf(events, cancelled, NotKilled) == RunCompleted <==>
            FirstEnd(events).value == Some(0) && NothingKills(events, cancelled)
  {
    KilledIff(events, cancelled, NotKilled);
  }

  /** Before the child's end no timeout fires and no heartbeat sees a cancellation. */
  predicate NothingKills(events: seq<Event>, cancelled: bool) {
    events == [] || events[0].ChildEnds? || (events[0].Heartbeat? && !cancelled && NothingKills(events[1..], cancelled))
  }

  lemma {:induction false} KilledIff(events: seq<Event>, cancelled: bool, killedBy: KillReason)
    ensures KillAfter(events, cancelled, killedBy) == NotKilled <==> killedBy == NotKilled && NothingKills(events, cancelled)
    decreases |events|
  {
    if events != [] && !events[0].ChildEnds? {
      KilledIff(events[1..], cancelled, KilledBy(events[0], cancelled, killedBy));
    }
  }

  // ---- the outcome by positions ---------------------------------------------------------

  /** The child ends at event `e` for the first time. */
  predicate EndsAt(events: seq<Event>, e: nat) {
    e < |events| && events[e].ChildEnds? && forall k | 0 <= k < e :: !events[k].ChildEnds?
  }

  /** A heartbeat before the end finds the cancellation, and no timeout fires after it. */
  ghost predicate UserKills(events: seq<Event>, e: nat, cancelled: bool)
    requires e <= |events|
  {
    cancelled && exists h | 0 <= h < e :: events[h].Heartbeat? && forall t | h < t < e :: !events[t].TimeoutFires?
  }

  /** A timeout fires before the end, and no heartbeat finds a cancellation after it. */
  ghost predicate TimeoutKills(events: seq<Event>, e: nat, cancelled: bool)
    requires e <= |events|
  {
    exists t | 0 <= t < e :: events[t].TimeoutFires? && (cancelled ==> forall h | t < h < e :: !events[h].Heartbeat?)
  }

  lemma UserKillsLater(events: seq<Event>, e: nat, cancelled: bool)
    requires 0 < e <= |events|
    ensures UserKills(events, e, cancelled) <==>
            || UserKills(events[1..], e - 1, cancelled)
            || (cancelled && events[0].Heartbeat? && forall t | 0 <= t < e - 1 :: !events[1..][t].TimeoutFires?)
  {
    var later := events[1..];
    forall h | 0 <= h < e - 1
      ensures later[h] == events[h + 1]
    {
    }
    if UserKills(later, e - 1, cancelled) {
      var h :| 0 <= h < e - 1 && later[h].Heartbeat? && forall t | h < t < e - 1 :: !later[t].TimeoutFires?;
      assert events[h + 1].Heartbeat? && forall t | h + 1 < t < e :: events[t] == later[t - 1];
    }
    if UserKills(events, e, cancelled) {
      var h :| 0 <= h < e && events[h].Heartbeat? && forall t | h < t < e :: !events[t].TimeoutFires?;
      if h > 0 { assert later[h - 1].Heartbeat?; }
    }
    if events[0].Heartbeat? && forall t | 0 <= t < e - 1 :: !later[t].TimeoutFires? {
      assert forall t | 0 < t < e :: events[t] == later[t - 1];
    }
  }

  lemma TimeoutKillsLater(events: seq<Event>, e: nat, cancelled: bool)
    requires 0 < e <= |events|
    ensures TimeoutKills(events, e, cancelled) <==>
            || TimeoutKills(events[1..], e - 1, cancelled)
            || (events[0].TimeoutFires? && (cancelled ==> forall h | 0 <= h < e - 1 :: !events[1..][h].Heartbeat?))
  {
    var later := events[1..];
    forall h | 0 <= h < e - 1
      ensures later[h] == events[h + 1]
    {
    }
    if TimeoutKills(later, e - 1, cancelled) {
      var t :| 0 <= t < e - 1 && later[t].TimeoutFires? && (cancelled ==> forall h | t < h < e - 1 :: !later[h].Heartbeat?);
      assert events[t + 1].TimeoutFires? && forall h | t + 1 < h < e :: events[h] == later[h - 1];
    }
    if TimeoutKills(events, e, cancelled) {
      var t :| 0 <= t < e && events[t].TimeoutFires? && (cancelled ==> forall h | t < h < e :: !events[h].Heartbeat?);
      if t > 0 { assert later[t - 1].TimeoutFires?; }
    }
    if events[0].TimeoutFires? && (cancelled ==> forall h | 0 <= h < e - 1 :: !later[h].Heartbeat?) {
      assert forall h | 0 < h < e :: events[h] == later[h - 1];
    }
  }

  /** Nothing before the end is of the kind, seen from the first event. */
  lemma NoneLater(events: seq<Event>, e: nat)
    requires 0 < e <= |events|
    ensures (forall t | 0 <= t < e :: !events[t].TimeoutFires?) <==>
            !events[0].TimeoutFires? && forall t | 0 <= t < e - 1 :: !events[1..][t].TimeoutFires?
    ensures (forall t | 0 <= t < e :: !events[t].Heartbeat?) <==>
            !events[0].Heartbeat? && forall t | 0 <= t < e - 1 :: !events[1..][t].Heartbeat?
  {
    assert forall t | 0 < t < e :: events[t] == events[1..][t - 1];
  }

  lemma EndsLater(events: seq<Event>, e: nat)
    requires EndsAt(events, e) && e > 0
    ensures EndsAt(events[1..], e - 1) && events[1..][e - 1] == events[e] && !events[0].ChildEnds?
  {
  }

  /** A kill by the user counts if no timeout follows, and an earlier one if none comes at all. */
  lemma {:induction false} UserCounts(events: seq<Event>, e: nat, cancelled: bool, killedBy: KillReason)
    requires EndsAt(events, e)
    ensures KillAfter(events, cancelled, killedBy) == ByUser <==>
            UserKills(events, e, cancelled) || (killedBy == ByUser && forall t | 0 <= t < e :: !events[t].TimeoutFires?)
    decreases e
  {
    if e > 0 {
      EndsLater(events, e);
      UserCounts(events[1..], e - 1, cancelled, KilledBy(events[0], cancelled, killedBy));
      UserKillsLater(events, e, cancelled);
      NoneLater(events, e);
    }
  }

  /** A timeout counts if no heartbeat finds a cancellation after it. */
  lemma {:induction false} TimeoutCounts(events: seq<Event>, e: nat, cancelled: bool, killedBy: KillReason)
    requires EndsAt(events, e)
    ensures KillAfter(events, cancelled, killedBy) == ByTimeout <==>
            || TimeoutKills(events, e, cancelled)
            || (killedBy == ByTimeout && (cancelled ==> forall h | 0 <= h < e :: !events[h].Heartbeat?))
    decreases e
  {
    if e > 0 {
      EndsLater(events, e);
      TimeoutCounts(events[1..], e - 1, cancelled, KilledBy(events[0], cancelled, killedBy));
      TimeoutKillsLater(events, e, cancelled);
      NoneLater(events, e);
    }
  }

  lemma {:induction false} EndIsFirst(events: seq<Event>, e: nat)
    requires EndsAt(events, e)
    ensures FirstEnd(events) == Some(events[e].exitCode)
    decreases e
  {
    if e > 0 {
      EndsLater(events, e);
      EndIsFirst(events[1..], e - 1);
    }
  }

  /** The run status when the child ends at event `e`, by what is killed before and by the exit code. */
  ghost predicate EndsAs(outcome: RunStatus, events: seq<Event>, e: nat, cancelled: bool)
    requires EndsAt(events, e)
  {
    var user, timeout := UserKills(events, e, cancelled), TimeoutKills(events, e, cancelled);
    && (outcome == RunKilled <==> user)
    && (outcome == RunTimeout <==> timeout)
    && (outcome == RunCompleted <==> !user && !timeout && events[e].exitCode == Some(0))
    && (outcome == RunFailed <==> !user && !timeout && events[e].exitCode != Some(0))
  }

  /** Main result: the events decide the run status by position. */
  lemma OutcomeByPosition(events: seq<Event>, e: nat, cancelled: bool)
    requires EndsAt(events, e)
    ensures FirstEnd(events).Some? && EndsAs(OutcomeOf(events, cancelled, NotKilled), events, e, cancelled)
  {
    EndIsFirst(events, e);
    UserCounts(events, e, cancelled, NotKilled);
    TimeoutCounts(events, e, cancelled, NotKilled);
  }

  class AIRunnerWorker {
    const me: WorkerId
    const job: JobId
    const db: Database
    var killedBy: KillReason

    constructor (id: WorkerId, jobId: JobId, database: Database)
      ensures me == id && job == jobId && db == database && killedBy == NotKilled
    {
      me, job, db, killedBy := id, jobId, database, NotKilled;
    }

    ghost predicate At(w: Engine.Worker)
      reads db
    {
      db.Valid() && me in db.state.workers && db.state.workers[me] == w && job in db.state.jobs
    }

    method Act(a: WorkerAction)
      requires db.Valid() && WorkerEnabled(db.state, me, a)
      modifies db
      ensures db.Valid() && me in db.state.workers
      ensures db.state == old(WorkerNext(db.state, me, a)) && db.state.clock == old(db.state.clock)
      ensures db.state.jobs == Apply(old(db.state.jobs), old(WorkerWrite(db.state, me, a)))
    {
      WorkerFrame(db.state, me, a);
      db.Call(ByWorker(me, a));
    }

    /** The claim succeeds exactly if the job is dispatched at that moment, and then counts one attempt. */
    method Claim() returns (claimed: bool)
      requires At(Starting(job))
      modifies db
      ensures claimed == (old(db.state.jobs)[job].status == Dispatched)
      ensures db.state.clock == old(db.state.clock)
      ensures claimed ==> At(Executing(job, NotKilled))
      ensures claimed ==> db.state.jobs == old(db.state.jobs)[job := Start(old(db.state.jobs)[job], db.state.clock)]
      ensures !claimed ==> db.Valid() && db.state.jobs == old(db.state.jobs)
    {
      claimed := db.state.jobs[job].status == Dispatched;
      Act(StartJob);
    }

    /** The flush of a running job, which marks it alive. */
    method Flush(ghost quiet: bool)
      requires At(Executing(job, killedBy))
      modifies db
      ensures At(Executing(job, killedBy)) && old(db.state.clock) <= db.state.clock
      ensures quiet ==> OnlyBeats(old(db.state.jobs), db.state.jobs, job)
    {
      db.OthersAct(WorkerProcess(me), quiet);
      Act(BeatHeart);
    }

    /** The heartbeat: a requested cancellation ends the child, otherwise the job is marked alive. */
    method Beat(ghost quiet: bool)
      requires At(Executing(job, killedBy))
      modifies db, this
      ensures At(Executing(job, killedBy))
      ensures killedBy == old(killedBy) || killedBy == ByUser
      ensures old(db.state.clock) <= db.state.clock
      ensures quiet ==> OnlyBeats(old(db.state.jobs), db.state.jobs, job)
      ensures quiet ==> (killedBy == ByUser <==> old(killedBy) == ByUser || old(db.state.jobs)[job].cancelRequested)
    {
      db.OthersAct(WorkerProcess(me), quiet);
      if db.state.jobs[job].cancelRequested && killedBy != ByUser {
        Act(SeeCancel);
        killedBy := ByUser;
      } else {
        Flush(quiet);
      }
    }

    /** The closing flush, the last read of the job, and the write decided from it. */
    method Finish(fallback: RunStatus, clears: bool, ghost before: Job, ghost claimedAt: int, ghost quiet: bool)
      returns (outcome: RunStatus)
      requires At(Executing(job, killedBy)) && (fallback == RunCompleted || fallback == RunFailed)
      requires quiet ==> Underway(before, db.state.jobs[job], claimedAt, killedBy) && claimedAt <= db.state.clock
      modifies db
      ensures db.Valid() && job in db.state.jobs
      ensures outcome == Outcome(killedBy, fallback)
      ensures quiet ==>
                && (db.state.jobs[job].status == Canceled <==> killedBy == ByUser)
                && (db.state.jobs[job].status == Completed <==> killedBy == NotKilled && fallback == RunCompleted)
      ensures quiet ==> IsAttempt(before, db.state.jobs[job], outcome, claimedAt, db.state.clock)
      ensures quiet ==> db.state.jobs == old(db.state.jobs)[job := db.state.jobs[job]]
    {
      outcome := Outcome(killedBy, fallback);
      Flush(quiet);
      db.OthersAct(WorkerProcess(me), quiet);
      ghost var seen := db.state.jobs[job];
      Act(BeginFinalize(fallback));
      db.OthersAct(WorkerProcess(me), quiet);
      if quiet {
        FinalizeIsAttempt(before, db.state.jobs[job], seen, killedBy, fallback, claimedAt, db.state.clock, clears);
      }
      Act(EndFinalize(clears));
    }

    /** The event loop of a claimed job, up to the end of the child or of the events. */
    method Execute(events: seq<Event>, clears: bool, ghost before: Job, ghost claimedAt: int, ghost quiet: bool)
      returns (end: End)
      requires At(Executing(job, killedBy))
      requires quiet ==> Underway(before, db.state.jobs[job], claimedAt, killedBy) && claimedAt <= db.state.clock
      modifies db, this
      ensures db.Valid() && job in db.state.jobs
      ensures if FirstEnd(events).Some? then end.Finished? else end.StillExecuting? && At(Executing(job, killedBy))
      ensures quiet ==> db.state.jobs == old(db.state.jobs)[job := db.state.jobs[job]]
      ensures quiet && end.Finished? ==>
                && end.outcome == OutcomeOf(events, before.cancelRequested, old(killedBy))
                && IsAttempt(before, db.state.jobs[job], end.outcome, claimedAt, db.state.clock)
      ensures quiet && end.StillExecuting? ==>
                && killedBy == KillAfter(events, before.cancelRequested, old(killedBy))
                && Underway(before, db.state.jobs[job], claimedAt, killedBy)
    {
      var next := 0;
      assert events[0..] == events;
      while next < |events|
        invariant 0 <= next <= |events| && At(Executing(job, killedBy))
        invariant FirstEnd(events) == FirstEnd(events[next..])
        invariant quiet ==> Underway(before, db.state.jobs[job], claimedAt, killedBy) && claimedAt <= db.state.clock
        invariant quiet ==> db.state.jobs == old(db.state.jobs)[job := db.state.jobs[job]]
        invariant quiet ==> KillAfter(events, before.cancelRequested, old(killedBy))
                            == KillAfter(events[next..], before.cancelRequested, killedBy)
      {
        assert events[next..][0] == events[next] && events[next..][1..] == events[next + 1..];
        match events[next] {
          case Heartbeat => Beat(quiet);
          case TimeoutFires =>
            Act(TimeOut);
            killedBy := ByTimeout;
          case ChildEnds(exitCode) =>
            var outcome := Finish(if exitCode == Some(0) then RunCompleted else RunFailed, clears, before, claimedAt, quiet);
            return Finished(outcome);
        }
        next := next + 1;
      }
      assert events[next..] == [];
      return StillExecuting;
    }

    /**
     Main result. run() takes only steps of the protocol, whatever others do; `spawns` and `events` are what the
     operating system answers. A claimed job fails to launch exactly if the child cannot be spawned, and the call
     finishes exactly if the child ends. Left alone (`quiet`), however long the command takes, a call that finishes is
     one attempt in the sense of IsAttempt, with the outcome that the exit code and the kills before it decide; one
     that has not finished keeps the job underway, and one that cannot claim changes nothing.
     */
    method Run(spawns: bool, events: seq<Event>, clears: bool, ghost quiet: bool) returns (end: End, ghost claimedAt: int)
      requires At(Starting(job)) && killedBy == NotKilled
      modifies db, this
      ensures db.Valid() && job in db.state.jobs
      ensures !end.NotClaimed? ==> (end.LaunchFailed? <==> !spawns) && (end.Finished? <==> spawns && FirstEnd(events).Some?)
      ensures quiet ==> (end.NotClaimed? <==> old(db.state.jobs)[job].status != Dispatched)
      ensures quiet && end.NotClaimed? ==> db.state.jobs == old(db.state.jobs)
      ensures quiet ==> db.state.jobs == old(db.state.jobs)[job := db.state.jobs[job]] && old(db.state.clock) <= claimedAt
      ensures quiet && end.Finished? ==>
                && end.outcome == OutcomeOf(events, old(db.state.jobs)[job].cancelRequested, NotKilled)
                && IsAttempt(old(db.state.jobs)[job], db.state.jobs[job], end.outcome, claimedAt, db.state.clock)
      ensures quiet && end.Finished? ==> forall e | EndsAt(events, e) ::
                  && EndsAs(end.outcome, events, e, old(db.state.jobs)[job].cancelRequested)
                  && (UserKills(events, e, old(db.state.jobs)[job].cancelRequested) <==> db.state.jobs[job].status == Canceled)
                  && (db.state.jobs[job].status == Canceled ==> db.state.jobs[job].run == RunKilled)
      ensures quiet && end.LaunchFailed? ==> db.state.jobs[job] == FailToLaunch(Start(old(db.state.jobs)[job], claimedAt))
      ensures quiet && end.StillExecuting? ==>
                && killedBy == KillAfter(events, old(db.state.jobs)[job].cancelRequested, NotKilled)
                && Underway(old(db.state.jobs)[job], db.state.jobs[job], claimedAt, killedBy)
    {
      db.OthersAct(WorkerProcess(me), quiet);
      ghost var before := db.state.jobs;
      claimedAt := db.state.clock;
      var claimed := Claim();
      if !claimed {
        end := NotClaimed;
        return;
      }
      db.OthersAct(WorkerProcess(me), quiet);
      if spawns {
        end := Execute(events, clears, before[job], claimedAt, quiet);
        forall e | EndsAt(events, e)
          ensures FirstEnd(events).Some? && EndsAs(OutcomeOf(events, before[job].cancelRequested, NotKilled), events, e, before[job].cancelRequested)
        {
          OutcomeByPosition(events, e, before[job].cancelRequested);
        }
      } else {
        Act(LaunchFails);
        end := LaunchFailed;
      }
    }
  }
}
