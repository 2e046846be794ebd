/**
 The projection of finished update operations as a protocol: the app document is read, updated under the filter and
 the operation marked in separate steps, the process may stop between any two, and others act in between. One
 reconciler works on one app.
 */
module Projections {
  import opened Wrappers
  import opened AutoUpdates

  /** Where the reconciler stands with the first operation of what is left of its batch. */
  datatype Stage = Next | Holding(read: App) | Done

  datatype Pass = Idle | Busy(todo: seq<nat>, stage: Stage)

  /**
   `finished` holds the app's finished update operations in finishing order and `projected` the positions that carry
   a mark. `applied` is a history variable: the positions whose outcome an update took over, in that order.
   */
  datatype State = State(app: App, finished: seq<Operation>, projected: set<nat>, pass: Pass, applied: seq<nat>)

  datatype Step =
    | Find(room: nat)
    | Read
    | Update(now: int)
    | Mark
    | Close
    | Crash
    | Finish(op: Operation)
    | Change(elsewhere: App)

  predicate Init(s: State) {
    s.app.failures == 0 && s.app.lastProjected == None && s.finished == [] && s.projected == {} && s.pass == Idle && s.applied == []
  }

  /** The operation the pass works on. */
  predicate WorksAt(s: State, i: nat) {
    s.pass.Busy? && s.pass.todo != [] && s.pass.todo[0] == i && i < |s.finished|
  }

  predicate Enabled(s: State, step: Step) {
    match step
    case Find(_) => s.pass.Idle?
    case Read => s.pass.Busy? && s.pass.stage.Next? && s.pass.todo != []
    case Update(_) => s.pass.Busy? && s.pass.stage.Holding? && s.pass.todo != [] && s.pass.todo[0] < |s.finished|
    case Mark => s.pass.Busy? && s.pass.stage.Done? && s.pass.todo != []
    case Close => s.pass.Busy? && s.pass.stage.Next? && s.pass.todo == []
    case Crash => true
    case Finish(op) => forall k | 0 <= k < |s.finished| :: s.finished[k].id != op.id
    case Change(_) => true
  }

  function BatchOf(s: State, room: nat): seq<nat> {
    var all := Unprojected(|s.finished|, s.projected);
    all[..Min(Min(room, BATCH_LIMIT), |all|)]
  }

  /** The update takes the outcome of the operation at hand over. */
  predicate TakesOver(s: State)
    requires Enabled(s, Update(0))
  {
    var op := s.finished[s.pass.todo[0]];
    !op.status.Cancelled? && Accepts(s.app, s.pass.stage.read, op)
  }

  function UpdatedApp(s: State, now: int): App
    requires Enabled(s, Update(now))
  {
    var op := s.finished[s.pass.todo[0]];
    if op.status.Cancelled? then Replay(s.app, op, now) else Project(s.app, s.pass.stage.read, op)
  }

  function NextState(s: State, step: Step): State
    requires Enabled(s, step)
  {
    match step
    case Find(room) => s.(pass := Busy(BatchOf(s, room), Next))
    case Read => s.(pass := Busy(s.pass.todo, Holding(s.app)))
    case Update(now) =>
      s.(app := UpdatedApp(s, now), applied := s.applied + if TakesOver(s) then [s.pass.todo[0]] else [],
         pass := Busy(s.pass.todo, Done))
    case Mark => s.(projected := s.projected + {s.pass.todo[0]}, pass := Busy(s.pass.todo[1..], Next))
    case Close => s.(pass := Idle)
    case Crash => s.(pass := Idle)
    case Finish(op) => s.(finished := s.finished + [op])
    case Change(elsewhere) =>
      // everyone else writes anything but the two fields that only the projection writes
      s.(app := elsewhere.(failures := s.app.failures, lastProjected := s.app.lastProjected))
  }

  ghost predicate Legal(s: State, steps: seq<Step>)
    decreases |steps|
  {
    steps == [] || (Enabled(s, steps[0]) && Legal(NextState(s, steps[0]), steps[1..]))
  }

  function Exec(s: State, steps: seq<Step>): State
    requires Legal(s, steps)
    decreases |steps|
  {
    if steps == [] then s else Exec(NextState(s, steps[0]), steps[1..])
  }

  // ---- what happened in a run -----------------------------------------------------------

  predicate IsUpdateOf(s: State, step: Step, i: nat) {
    step.Update? && WorksAt(s, i)
  }

  /** Some update step of the run is about the operation at `i` and takes its outcome over. */
  ghost predicate AcceptedIn(s: State, steps: seq<Step>, i: nat)
    requires Legal(s, steps)
    decreases |steps|
  {
    steps != [] && ((IsUpdateOf(s, steps[0], i) && TakesOver(s)) || AcceptedIn(NextState(s, steps[0]), steps[1..], i))
  }

  /** Some update step of the run is about the operation at `i`, and its filter refuses the outcome. */
  ghost predicate RefusedIn(s: State, steps: seq<Step>, i: nat)
    requires Legal(s, steps)
    decreases |steps|
  {
    steps != [] && ((IsUpdateOf(s, steps[0], i) && !TakesOver(s)) || RefusedIn(NextState(s, steps[0]), steps[1..], i))
  }

  /** The positions that are left: unmarked, in order, and none before them is forgotten. */
  ghost predicate IsFront(todo: seq<nat>, n: nat, projected: set<nat>) {
    && Ascending(todo, n)
    && (forall i | i in todo :: i !in projected)
    && (forall i, k | 0 <= k < |todo| && 0 <= i < todo[k] && i !in projected :: i in todo)
  }

  ghost predicate Inv(s: State) {
    && Counted(s.app, s.finished, s.projected, s.applied)
    && (s.pass.Busy? ==>
          && IsFront(s.pass.todo, |s.finished|, s.projected)
          && (s.pass.stage.Holding? ==> s.pass.todo != [] && s.pass.stage.read.failures == s.app.failures)
          && (s.pass.stage.Done? ==> s.pass.todo != []))
  }

  lemma BatchIsFront(s: State, room: nat)
    ensures IsFront(BatchOf(s, room), |s.finished|, s.projected)
  {
    var all := Unprojected(|s.finished|, s.projected);
    var batch := BatchOf(s, room);
    forall i, k | 0 <= k < |batch| && 0 <= i < batch[k] && i !in s.projected
      ensures i in batch
    {
      assert i in all;
      var l :| 0 <= l < |all| && all[l] == i;
      assert batch[k] == all[k] && l < k;
      assert batch[l] == i;
    }
    assert forall i | i in batch :: i in all;
  }

  /** A batch holds at most 100 operations, the oldest unmarked ones, and all of them if neither limit is reached. */
  lemma BatchIsOldest(s: State, room: nat)
    ensures var batch := BatchOf(s, room);
            && IsFront(batch, |s.finished|, s.projected) && |batch| <= 100 && |batch| <= room
            && (|batch| < 100 && |batch| < room ==> forall i | 0 <= i < |s.finished| && i !in s.projected :: i in batch)
  {
    BatchIsFront(s, room);
  }

  lemma FrontShrinks(todo: seq<nat>, n: nat, projected: set<nat>)
    requires IsFront(todo, n, projected) && todo != []
    ensures IsFront(todo[1..], n, projected + {todo[0]})
  {
    forall i, k | 0 <= k < |todo[1..]| && 0 <= i < todo[1..][k] && i !in projected + {todo[0]}
      ensures i in todo[1..]
    {
      assert i < todo[k + 1];
      var l :| 0 <= l < |todo| && todo[l] == i;
      assert todo[1..][l - 1] == i;
    }
  }

  lemma FirstIsFirstUnmarked(todo: seq<nat>, n: nat, projected: set<nat>)
    requires IsFront(todo, n, projected) && todo != []
    ensures todo[0] < n && todo[0] !in projected && forall i | 0 <= i < todo[0] :: i in projected
  {
    forall x | x in todo
      ensures todo[0] <= x
    {
      var l :| 0 <= l < |todo| && todo[l] == x;
    }
  }

  lemma UpdateKeeps(s: State, now: int)
    requires Inv(s) && Enabled(s, Update(now))
    ensures Inv(NextState(s, Update(now)))
  {
    var at := s.pass.todo[0];
    FirstIsFirstUnmarked(s.pass.todo, |s.finished|, s.projected);
    if !s.finished[at].status.Cancelled? {
      TakingOverCountsOnce(s.app, s.pass.stage.read, s.finished, s.projected, s.applied, at);
    }
    assert s.applied + [] == s.applied;
  }

  lemma FinishKeeps(s: State, op: Operation)
    requires Inv(s) && Enabled(s, Finish(op))
    ensures Inv(NextState(s, Finish(op)))
  {
  }

  lemma StepKeeps(s: State, step: Step)
    requires Inv(s) && Enabled(s, step)
    ensures Inv(NextState(s, step))
  {
    match step
    case Find(room) => BatchIsFront(s, room);
    case Update(now) => UpdateKeeps(s, now);
    case Mark =>
      FrontShrinks(s.pass.todo, |s.finished|, s.projected);
      MarkingKeepsCount(s.app, s.finished, s.projected, s.applied, s.pass.todo[0]);
    case Finish(op) => FinishKeeps(s, op);
    case _ =>
  }

  lemma {:induction false} RunKeeps(s: State, steps: seq<Step>)
    requires Inv(s) && Legal(s, steps)
    ensures Inv(Exec(s, steps)) && s.finished <= Exec(s, steps).finished
    decreases |steps|
  {
    if steps != [] {
      StepKeeps(s, steps[0]);
      RunKeeps(NextState(s, steps[0]), steps[1..]);
    }
  }

  lemma {:induction false} AppliedIff(s: State, steps: seq<Step>, i: nat)
    requires Inv(s) && Legal(s, steps)
    ensures i in Exec(s, steps).applied <==> i in s.applied || AcceptedIn(s, steps, i)
    decreases |steps|
  {
    if steps != [] {
      var t := NextState(s, steps[0]);
      StepKeeps(s, steps[0]);
      AppliedIff(t, steps[1..], i);
      assert i in t.applied <==> i in s.applied || (IsUpdateOf(s, steps[0], i) && TakesOver(s));
    }
  }

  /** The operation at `i` has been tried and waits for its mark. */
  predicate AwaitsMark(s: State, i: nat) {
    WorksAt(s, i) && s.pass.stage.Done?
  }

  lemma {:induction false} MarkedWasTried(s: State, steps: seq<Step>, i: nat)
    requires Inv(s) && Legal(s, steps) && i in Exec(s, steps).projected
    ensures i in s.projected || AwaitsMark(s, i) || AcceptedIn(s, steps, i) || RefusedIn(s, steps, i)
    decreases |steps|
  {
    if steps != [] {
      var t := NextState(s, steps[0]);
      StepKeeps(s, steps[0]);
      MarkedWasTried(t, steps[1..], i);
      if i in t.projected && i !in s.projected {
        assert steps[0].Mark?;
        FirstIsFirstUnmarked(s.pass.todo, |s.finished|, s.projected);
      }
    }
  }

  /**
   Main result, over every run with passes cut short anywhere and others acting in between: the failure counter is the
   trailing run of the counted outcomes, which are counted at most once and in finishing order; an outcome is counted
   exactly if an update of the run accepted it; and every marked operation was tried by an update, so that its outcome
   is counted or was refused by the filter.
   */
  lemma OutcomesCountOnce(s: State, steps: seq<Step>)
    requires Init(s) && Legal(s, steps)
    ensures var t := Exec(s, steps);
            && Counted(t.app, t.finished, t.projected, t.applied)
            && (forall i: nat :: i in t.applied <==> AcceptedIn(s, steps, i))
            && (forall i: nat | i in t.projected :: i in t.applied || RefusedIn(s, steps, i))
  {
    RunKeeps(s, steps);
    var t := Exec(s, steps);
    forall i: nat
      ensures i in t.applied <==> AcceptedIn(s, steps, i)
    {
      AppliedIff(s, steps, i);
    }
    forall i: nat | i in t.projected
      ensures i in t.applied || RefusedIn(s, steps, i)
    {
      MarkedWasTried(s, steps, i);
    }
  }

  // ---- lost outcomes --------------------------------------------------------------------

  /** Once marked without being counted, an outcome is never counted. */
  lemma {:induction false} LostForGood(s: State, steps: seq<Step>, i: nat)
    requires Inv(s) && Legal(s, steps) && i in s.projected && i !in s.applied
    ensures i in Exec(s, steps).projected && i !in Exec(s, steps).applied
    decreases |steps|
  {
    if steps != [] {
      StepKeeps(s, steps[0]);
      if steps[0].Update? {
        FirstIsFirstUnmarked(s.pass.todo, |s.finished|, s.projected);
      }
      LostForGood(NextState(s, steps[0]), steps[1..], i);
    }
  }

  /** When the update of an outcome that was not cancelled counts it. */
  lemma CountsIff(s: State, now: int)
    requires Inv(s) && Enabled(s, Update(now)) && !s.finished[s.pass.todo[0]].status.Cancelled?
    ensures var at, op := s.pass.todo[0], s.finished[s.pass.todo[0]];
            at in NextState(s, Update(now)).applied <==>
            || at in s.applied
            || (&& s.app.generation == op.generation.GetOr(s.pass.stage.read.generation)
                && (s.app.lastOperation == Some(op.id) || s.app.lastOperation == None
                    || (op.scheduledFor.Some? && s.app.nextRunAt == op.scheduledFor)))
  {
    var at := s.pass.todo[0];
    FirstIsFirstUnmarked(s.pass.todo, |s.finished|, s.projected);
    if s.app.lastProjected == Some(s.finished[at].id) {
      var last := s.applied[|s.applied| - 1];
      assert s.finished[last].id == s.finished[at].id;
      assert last == at;
    }
    assert at in s.applied + [at];
  }

  /** The example of a lost outcome: a manual update that failed, and the operation that starts after it. */
  const IDLE_APP := App(true, 0, 60, None, None, None, None, 0)
  const FAILED_UPDATE := Operation(1, Failed, false, Some(0), None, 0, false)

  function Lose(): seq<Step> {
    [Change(IDLE_APP.(lastOperation := Some(1))), Finish(FAILED_UPDATE), Change(IDLE_APP.(lastOperation := Some(2))),
     Find(1), Read, Update(0), Mark, Close]
  }

  /**
   A manual update fails, and the next operation registers itself as the last one before the pass: the filter refuses
   the failure, the operation is marked all the same, and the failure is never counted.
   */
  lemma OutcomeIsLost()
    ensures var s := State(IDLE_APP, [], {}, Idle, []);
            && Init(s) && Legal(s, Lose())
            && var t := Exec(s, Lose());
               t.finished == [FAILED_UPDATE] && t.projected == {0} && t.applied == [] && t.app.failures == 0
  {
    var s := State(IDLE_APP, [], {}, Idle, []);
    var first, second := IDLE_APP.(lastOperation := Some(1)), IDLE_APP.(lastOperation := Some(2));
    var s1, s3 := State(first, [], {}, Idle, []), State(second, [FAILED_UPDATE], {}, Idle, []);
    var s2 := s1.(finished := [FAILED_UPDATE]);
    var steps := Lose();
    LosingPass(s3);
    assert [] + [FAILED_UPDATE] == [FAILED_UPDATE];
    assert steps[3..] == [Find(1), Read, Update(0), Mark, Close];
    RunsTo(s2, steps[2..], s3, steps[3..]);
    RunsTo(s1, steps[1..], s2, steps[2..]);
    RunsTo(s, steps, s1, steps[1..]);
  }

  /** The pass over the failed update. */
  lemma LosingPass(s: State)
    requires s == State(IDLE_APP.(lastOperation := Some(2)), [FAILED_UPDATE], {}, Idle, [])
    ensures Legal(s, [Find(1), Read, Update(0), Mark, Close])
    ensures Exec(s, [Find(1), Read, Update(0), Mark, Close]) == s.(projected := {0})
  {
    OneInBatch(s);
    var s1 := s.(pass := Busy([0], Next));
    var s2 := s.(pass := Busy([0], Holding(s.app)));
    var s3 := s.(pass := Busy([0], Done));
    assert s.applied + [] == s.applied;
    MarksAndCloses(s, s3);
    RunsTo(s2, [Update(0), Mark, Close], s3, [Mark, Close]);
    RunsTo(s1, [Read, Update(0), Mark, Close], s2, [Update(0), Mark, Close]);
    RunsTo(s, [Find(1), Read, Update(0), Mark, Close], s1, [Read, Update(0), Mark, Close]);
  }

  lemma OneInBatch(s: State)
    requires |s.finished| == 1 && s.projected == {}
    ensures BatchOf(s, 1) == [0]
  {
    OneUnprojected();
    assert [0][..1] == [0];
  }

  lemma OneUnprojected()
    ensures Unprojected(1, {}) == [0]
  {
    assert Unprojected(0, {}) == [];
  }

  lemma MarksAndCloses(s: State, done: State)
    requires s.projected == {} && s.pass == Idle && done == s.(pass := Busy([0], Done))
    ensures Legal(done, [Mark, Close]) && Exec(done, [Mark, Close]) == s.(projected := {0})
  {
    var marked := s.(projected := {0}, pass := Busy([], Next));
    assert [0][1..] == [] && {} + {0} == {0};
    RunsTo(marked, [Close], s.(projected := {0}), []);
    RunsTo(done, [Mark, Close], marked, [Close]);
  }

  lemma RunsTo(s: State, steps: seq<Step>, t: State, rest: seq<Step>)
    requires steps != [] && rest == steps[1..] && Enabled(s, steps[0]) && t == NextState(s, steps[0]) && Legal(t, rest)
    ensures Legal(s, steps) && Exec(s, steps) == Exec(t, rest)
  {
  }

  // ---- the code -------------------------------------------------------------------------

  predicate IsByOthers(step: Step) {
    step.Finish? || step.Change?
  }

  /** What the reconciler may rely on while others act. */
  ghost predicate Undisturbed(s: State, t: State) {
    && s.finished <= t.finished && t.projected == s.projected && t.pass == s.pass && t.applied == s.applied
    && t.app.failures == s.app.failures && t.app.lastProjected == s.app.lastProjected
  }

  lemma {:induction false} OthersLeaveThePass(s: State, steps: seq<Step>)
    requires Legal(s, steps) && forall k | 0 <= k < |steps| :: IsByOthers(steps[k])
    ensures Undisturbed(s, Exec(s, steps))
    decreases |steps|
  {
    if steps != [] {
      OthersLeaveThePass(NextState(s, steps[0]), steps[1..]);
    }
  }

  lemma {:induction false} LegalAppend(s: State, steps: seq<Step>, step: Step)
    requires Legal(s, steps) && Enabled(Exec(s, steps), step)
    ensures Legal(s, steps + [step]) && Exec(s, steps + [step]) == NextState(Exec(s, steps), step)
    decreases |steps|
  {
    if steps == [] {
      assert steps + [step] == [step] && [step][1..] == [];
    } else {
      assert (steps + [step])[1..] == steps[1..] + [step];
      LegalAppend(NextState(s, steps[0]), steps[1..], step);
    }
  }

  /** The documents with the history of every step taken on them so far. */
  class Store {
    var state: State
    ghost const start: State
    ghost var steps: seq<Step>

    ghost predicate Valid()
      reads this
    {
      Legal(start, steps) && state == Exec(start, steps)
    }

    constructor (initial: State)
      ensures Valid() && start == state == initial && steps == []
    {
      state, start, steps := initial, initial, [];
    }

    method Call(step: Step)
      requires Valid() && Enabled(state, step)
      modifies this
      ensures Valid() && state == NextState(old(state), step) && steps == old(steps) + [step]
    {
      LegalAppend(start, steps, step);
      state := NextState(state, step);
      steps := steps + [step];
    }

    /** Anything others may do between two calls; nothing when `quiet`. Callers know only the contract. */
    method OthersAct(ghost quiet: bool)
      requires Valid()
      modifies this
      ensures Valid() && Undisturbed(old(state), state) && old(steps) <= steps
      ensures quiet ==> state == old(state)
    {
    }
  }

  ghost function Members(s: seq<nat>): set<nat> {
    set i | i in s
  }

  lemma OneFurther(s: seq<nat>, next: nat)
    requires next < |s|
    ensures s[next..][0] == s[next] && s[next..][1..] == s[next + 1..]
    ensures Members(s[..next + 1]) == Members(s[..next]) + {s[next]}
  {
    assert s[..next + 1] == s[..next] + [s[next]];
  }

  class Reconciler {
    const store: Store

    constructor (s: Store)
      ensures store == s
    {
      store := s;
    }

    ghost predicate At(pass: Pass)
      reads store
    {
      store.Valid() && store.state.pass == pass
    }

    /** The process stops: whatever the pass still knew is gone. */
    method Stop()
      requires store.Valid()
      modifies store
      ensures At(Idle) && store.state == old(store.state).(pass := Idle)
    {
      store.Call(Crash);
    }

    /** One operation of the batch, unless the process stops before one of its three calls. */
    method ProjectNext(todo: seq<nat>, clock: nat -> int, stops: (bool, bool, bool), ghost quiet: bool) returns (done: bool)
      requires At(Busy(todo, Next)) && todo != [] && todo[0] < |store.state.finished|
      modifies store
      ensures done <==> !stops.0 && !stops.1 && !stops.2
      ensures At(if done then Busy(todo[1..], Next) else Idle)
      ensures old(store.state).finished <= store.state.finished
      ensures store.state.projected == old(store.state).projected + if done then {todo[0]} else {}
      ensures quiet && done ==>
                && store.state.finished == old(store.state).finished
                && store.state.app == Replay(old(store.state).app, store.state.finished[todo[0]], clock(todo[0]))
    {
      done := false;
      store.OthersAct(quiet);
      if stops.0 { Stop(); return; }
      store.Call(Read);
      store.OthersAct(quiet);
      if stops.1 { Stop(); return; }
      store.Call(Update(clock(todo[0])));
      store.OthersAct(quiet);
      if stops.2 { Stop(); return; }
      store.Call(Mark);
      done := true;
    }

    /**
     reconcileAutoUpdateResults over the oldest unmarked operations of the app: `room` is what other apps' operations
     leave of the batch, and `stops` says before which calls the process stops. Every call is a step of the protocol.
     A pass that is not stopped marks its whole batch, and left alone it replays it in finishing order.
     */
    method Reconcile(room: nat, clock: nat -> int, stops: nat -> (bool, bool, bool), ghost quiet: bool)
      returns (batch: seq<nat>, completed: bool)
      requires At(Idle)
      modifies store
      ensures At(Idle) && batch == BatchOf(old(store.state), room)
      ensures completed <==> forall k: nat | k < |batch| :: stops(k) == (false, false, false)
      ensures old(store.state).finished <= store.state.finished
      ensures completed ==> store.state.projected == old(store.state).projected + Members(batch)
      ensures quiet && completed ==>
                && store.state.finished == old(store.state).finished
                && (forall k | 0 <= k < |batch| :: batch[k] < |store.state.finished|)
                && store.state.app == ReplayAll(old(store.state).app, store.state.finished, batch, clock)
    {
      batch := BatchOf(store.state, room);
      BatchIsFront(store.state, room);
      ghost var start := store.state;
      store.Call(Find(room));
      assert batch[0..] == batch;
      for next := 0 to |batch|
        invariant At(Busy(batch[next..], Next)) && start.finished <= store.state.finished
        invariant forall k: nat | k < next :: stops(k) == (false, false, false)
        invariant store.state.projected == start.projected + Members(batch[..next])
        invariant quiet ==> store.state.finished == start.finished
        invariant quiet ==> ReplayAll(store.state.app, start.finished, batch[next..], clock)
                            == ReplayAll(start.app, start.finished, batch, clock)
      {
        OneFurther(batch, next);
        var done := ProjectNext(batch[next..], clock, stops(next), quiet);
        if !done { return batch, false; }
      }
      assert batch[|batch|..] == [] && batch[..|batch|] == batch;
      store.Call(Close);
      completed := true;
    }
  }
}
