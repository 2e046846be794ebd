/** The web process: killRun, which reads the run and then the job before it writes. */
module WebCode {
  import opened Wrappers
  import opened Jobs
  import opened Engine
  import opened Databases
  import opened Cancellation
  import opened Agreement

  /** The runs that a kill refuses are, in every reachable state, those whose jobs are over too. */
  lemma RefusedIff(s: State, steps: seq<Step>, id: JobId)
    requires Init(s) && Legal(s, steps) && id in Exec(s, steps).jobs
    ensures KillRefuses(Exec(s, steps).jobs[id].run) <==> Exec(s, steps).jobs[id].status in {Completed, Failed, Canceled}
  {
    JobsAndRunsAgree(s, steps, id);
  }

  class RunService {
    const db: Database

    constructor (database: Database)
      ensures db == database
    {
      db := database;
    }

    method Act(request: RequestId, a: WebAction)
      requires db.Valid() && WebEnabled(db.state, request, a)
      modifies db
      ensures db.Valid() && db.state == old(WebNext(db.state, request, a))
      ensures db.state.jobs == Apply(old(db.state.jobs), old(WebWrite(db.state, request, a)))
      ensures db.steps == old(db.steps) + [ByWeb(request, a)]
    {
      WebFrame(db.state, request, a);
      db.Call(ByWeb(request, a));
    }

    /**
     killRun for a run that has a job. Whatever happens between its reads and its write, an accepted request
     leaves the job with its cancellation requested. Left alone it accepts exactly the runs that are not over,
     cancels a waiting job at once and only flags an active one.
     */
    method KillRun(request: RequestId, target: JobId, ghost quiet: bool) returns (accepted: bool)
      requires db.Valid() && request !in db.state.kills && target in db.state.jobs
      modifies db
      ensures db.Valid() && target in db.state.jobs && old(db.steps) <= db.steps
      ensures accepted ==> db.state.jobs[target].cancelRequested
      ensures accepted ==> |db.steps| > |old(db.steps)| && db.steps[|db.steps| - 1] == ByWeb(request, WriteKill)
      ensures !accepted ==> ByOthers(db.steps[|old(db.steps)|..], WebRequest(request))
      ensures quiet ==> (accepted <==> old(db.state.jobs)[target].run in {RunQueued, RunRunning, RunRetrying, RunSkipped})
      ensures quiet ==> db.state.jobs == old(db.state.jobs)[target := db.state.jobs[target]]
      ensures quiet && accepted && old(db.state.jobs)[target].status in {Queued, Retrying} ==>
                db.state.jobs[target] == old(db.state.jobs)[target].(status := Canceled, run := RunKilled, cancelRequested := true)
      ensures quiet && accepted && old(db.state.jobs)[target].status !in {Queued, Retrying} ==>
                db.state.jobs[target] == old(db.state.jobs)[target].(cancelRequested := true)
    {
      db.OthersAct(WebRequest(request), quiet);
      if KillRefuses(db.state.jobs[target].run) {
        return false;
      }
      Act(request, ReadRun(target));
      var seen := ReadStatus(request, target, quiet);
      Act(request, WriteKill);
      return true;
    }

    /** The second read of killRun, with others acting before and after it. */
    method ReadStatus(request: RequestId, target: JobId, ghost quiet: bool) returns (seen: JobStatus)
      requires db.Valid() && target in db.state.jobs && request in db.state.kills && db.state.kills[request] == RunRead(target)
      modifies db
      ensures db.Valid() && target in db.state.jobs && old(db.steps) <= db.steps
      ensures request in db.state.kills && db.state.kills[request] == JobRead(target, seen)
      ensures quiet ==> db.state.jobs == old(db.state.jobs) && seen == db.state.jobs[target].status
    {
      db.OthersAct(WebRequest(request), quiet);
      seen := db.state.jobs[target].status;
      Act(request, ReadJob);
      db.OthersAct(WebRequest(request), quiet);
    }

    /**
     A kill and then anything at all. `atKill` is the state right after this request's write: from there on the job is
     never dispatched again, and at most the attempt already handed to a worker still starts.
     */
    method KillRunAndLetOthersAct(request: RequestId, target: JobId)
      returns (accepted: bool, ghost written: nat, ghost atKill: State)
      requires db.Valid() && request !in db.state.kills && target in db.state.jobs
      modifies db
      ensures db.Valid() && target in db.state.jobs
      ensures accepted ==>
                && |old(db.steps)| < written <= |db.steps| && db.steps[written - 1] == ByWeb(request, WriteKill)
                && Legal(db.start, db.steps[..written]) && atKill == Exec(db.start, db.steps[..written])
                && target in atKill.jobs && atKill.jobs[target].cancelRequested
                && var then_, now := atKill.jobs[target], db.state.jobs[target];
                   && now.dispatchCount == then_.dispatchCount
                   && now.attemptCount <= then_.attemptCount + (if then_.status == Dispatched then 1 else 0)
    {
      accepted := KillRun(request, target, false);
      atKill, written := db.state, |db.steps|;
      ghost var before := db.steps;
      db.OthersAct(WebRequest(request), false);
      if accepted {
        ghost var later := db.steps[written..];
        assert db.steps == before + later && db.steps[..written] == before;
        LegalSplit(db.start, before, later);
        CancellationIsFinal(atKill, later, target);
      }
    }
  }
}
