/**
 The shared database and its actors. The code of each actor is written as methods that issue database calls;
 every call is a step of the protocol in Engine, so everything proved about its runs holds for that code.
 */
module Databases {
  import opened Wrappers
  import opened Jobs
  import opened Engine
  import opened Cancellation

  datatype Actor = SupervisorProcess(supervisor: SupervisorId) | WorkerProcess(worker: WorkerId) | WebRequest(request: RequestId)

  predicate IsBy(step: Step, me: Actor) {
    match step
    case Wait(_) => false
    case BySupervisor(i, _) => me == SupervisorProcess(i)
    case ByWorker(w, _) => me == WorkerProcess(w)
    case ByWeb(k, _) => me == WebRequest(k)
  }

  /** None of the steps is taken by `me`. */
  predicate ByOthers(steps: seq<Step>, me: Actor) {
    forall k | 0 <= k < |steps| :: !IsBy(steps[k], me)
  }

  /** Nobody but `me` has changed what `me` holds. */
  ghost predicate KeepsOwn(s: State, t: State, me: Actor) {
    match me
    case SupervisorProcess(i) => if i in s.supervisors then i in t.supervisors && t.supervisors[i] == s.supervisors[i] else i !in t.supervisors
    case WorkerProcess(w) => w in s.workers ==> w in t.workers && t.workers[w] == s.workers[w]
    case WebRequest(k) => if k in s.kills then k in t.kills && t.kills[k] == s.kills[k] else k !in t.kills
  }

  /** What `me` may rely on while others act. */
  ghost predicate Undisturbed(s: State, t: State, me: Actor) {
    s.jobs.Keys <= t.jobs.Keys && s.clock <= t.clock && KeepsOwn(s, t, me)
  }

  lemma OtherStepLeavesMe(s: State, step: Step, me: Actor)
    requires Enabled(s, step) && !IsBy(step, me)
    ensures Undisturbed(s, Next(s, step), me)
  {
    StepJobs(s, step);
    match step {
      case Wait(_) =>
      case BySupervisor(i, a) => if IsTickAction(a) { TickFrame(s, i, a); } else { LeaseFrame(s, i, a); }
      case ByWorker(w, a) => WorkerFrame(s, w, a);
      case ByWeb(k, a) => WebFrame(s, k, a);
    }
  }

  /** Whatever others do, in any number of steps, it leaves alone what an actor holds. */
  lemma {:induction false} OthersLeaveMe(s: State, steps: seq<Step>, me: Actor)
    requires Legal(s, steps) && ByOthers(steps, me)
    ensures Undisturbed(s, Exec(s, steps), me)
    decreases |steps|
  {
    if steps != [] {
      OtherStepLeavesMe(s, steps[0], me);
      OthersLeaveMe(Next(s, steps[0]), steps[1..], me);
    }
  }

  lemma {:induction false} LegalAppend(s: State, first: seq<Step>, second: seq<Step>)
    requires Legal(s, first) && Legal(Exec(s, first), second)
    ensures Legal(s, first + second) && Exec(s, first + second) == Exec(Exec(s, first), second)
    decreases |first|
  {
    if first == [] {
      assert first + second == second;
    } else {
      assert (first + second)[1..] == first[1..] + second;
      LegalAppend(Next(s, first[0]), first[1..], second);
    }
  }

  /** A history falls apart at any point into two. */
  lemma {:induction false} LegalSplit(s: State, first: seq<Step>, second: seq<Step>)
    requires Legal(s, first + second)
    ensures Legal(s, first) && Legal(Exec(s, first), second)
    ensures Exec(s, first + second) == Exec(Exec(s, first), second)
    decreases |first|
  {
    if first == [] {
      assert first + second == second;
    } else {
      assert (first + second)[1..] == first[1..] + second;
      LegalSplit(Next(s, first[0]), first[1..], second);
    }
  }

  /** How many ticks a supervisor has ended, stale snapshots it has worked off, and dispatch passes it has begun. */
  datatype Tally = Tally(ticks: nat, reconciles: nat, passes: nat)

  function Bump(t: Tally, a: SupervisorAction): Tally {
    match a
    case EndTick => t.(ticks := t.ticks + 1)
    case EndReconcile => t.(reconciles := t.reconciles + 1)
    case CountActive(_) => t.(passes := t.passes + 1)
    case _ => t
  }

  function Counted(steps: seq<Step>, me: SupervisorId): Tally {
    if steps == [] then Tally(0, 0, 0)
    else
      var last := steps[|steps| - 1];
      var before := Counted(steps[..|steps| - 1], me);
      if IsBy(last, SupervisorProcess(me)) then Bump(before, last.act) else before
  }

  lemma CountStep(steps: seq<Step>, step: Step, me: SupervisorId)
    ensures Counted(steps + [step], me)
            == if IsBy(step, SupervisorProcess(me)) then Bump(Counted(steps, me), step.act) else Counted(steps, me)
  {
    assert (steps + [step])[..|steps|] == steps;
  }

  lemma LastApart(steps: seq<Step>, more: seq<Step>)
    requires more != []
    ensures steps + more == steps + more[..|more| - 1] + [more[|more| - 1]]
  {
  }

  /** Steps of others do not count. */
  lemma {:induction false} OthersCountNothing(steps: seq<Step>, more: seq<Step>, me: SupervisorId)
    requires ByOthers(more, SupervisorProcess(me))
    ensures Counted(steps + more, me) == Counted(steps, me)
    decreases |more|
  {
    if more == [] {
      assert steps + more == steps;
    } else {
      var init, last := more[..|more| - 1], more[|more| - 1];
      assert !IsBy(last, SupervisorProcess(me));
      OthersCountNothing(steps, init, me);
      CountStep(steps + init, last, me);
      LastApart(steps, more);
    }
  }

  /** The documents with the history of every step taken on them so far. */
  class Database {
    var state: State
    ghost const start: State
    ghost var steps: seq<Step>

    ghost predicate Valid()
      reads this
    {
      Legal(start, steps) && state == Exec(start, steps)
    }

    constructor (initial: State)
      ensures Valid() && start == state == initial && steps == []
    {
      state, start, steps := initial, initial, [];
    }

    /** One database call by some actor. */
    method Call(step: Step)
      requires Valid() && Enabled(state, step)
      modifies this
      ensures Valid() && state == Next(old(state), step) && steps == old(steps) + [step]
    {
      ghost var next := Next(state, step);
      assert Legal(next, [step][1..]) && Exec(state, [step]) == next;
      LegalAppend(start, steps, [step]);
      state := Next(state, step);
      steps := steps + [step];
    }

    /**
     Anything that others may do between two calls of `me`; when `quiet`, only time passes. Callers know only the
     contract, which allows every legal sequence of such steps.
     */
    method OthersAct(ghost me: Actor, ghost quiet: bool)
      requires Valid()
      modifies this
      ensures Valid() && Undisturbed(old(state), state, me)
      ensures old(steps) <= steps && ByOthers(steps[|old(steps)|..], me)
      ensures me.SupervisorProcess? ==> Counted(steps, me.supervisor) == old(Counted(steps, me.supervisor))
      ensures quiet ==> state == old(state).(clock := state.clock)
    {
    }
  }
}
