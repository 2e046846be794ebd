/**
 Enqueuing the slots of one schedule, with crashes: each database call is one step, any number of
 passes may be under way (a crashed pass simply stops), and the unique index on
 (scheduleId, scheduledFor) is the only guard. The cron expression stays fixed.
 */
module ScheduleSlots {
  import opened Wrappers
  import opened CatchUp

  type PassId = nat

  datatype Pass =
    | Walking(cursor: Option<int>, now: int, count: nat)   // before the next slot, or at the end of the walk
    | Recording(slot: int, now: int, count: nat)           // run stored, the schedule not yet updated
    | Advancing(slot: int, now: int, count: nat)           // this slot is done with
    | Over

  datatype State = State(
    stored: Option<int>,     // nextRunTime of the schedule document
    jobs: seq<int>,          // slots of the job documents, one entry per document
    skipped: set<int>,       // slots with a skipped run
    raised: set<int>,        // slots whose enqueue raised an error
    passes: map<PassId, Pass>)

  datatype Step =
    | Begin(pass: PassId, at: int)
    | RaiseError(pass: PassId)
    | SkipRun(pass: PassId)
    | CreateJob(pass: PassId)
    | UpdateSchedule(pass: PassId, clears: bool)
    | LoseUpdate(pass: PassId)
    | Advance(pass: PassId)
    | Save(pass: PassId, clears: bool)
    | Crash(pass: PassId)

  predicate MayAttempt(p: Pass) {
    p.Walking? && p.cursor.Some? && p.cursor.value <= p.now && p.count < MAX_CATCHUP_RUNS
  }

  predicate Enabled(s: State, step: Step) {
    match step
    case Begin(p, at) => p !in s.passes && s.stored.Some? && s.stored.value <= at
    case _ =>
      && step.pass in s.passes
      && var me := s.passes[step.pass];
         match step
         case RaiseError(_) => MayAttempt(me)
         case SkipRun(_) => MayAttempt(me)
         case CreateJob(_) => MayAttempt(me)
         case UpdateSchedule(_, _) => me.Recording?
         case LoseUpdate(_) => me.Recording?
         case Advance(_) => me.Advancing?
         case Save(_, _) => me.Walking? && !MayAttempt(me)
         case Crash(_) => true
         case _ => false
  }

  function SetPass(s: State, p: PassId, me: Pass): State {
    s.(passes := s.passes[p := me])
  }

  /** Writing undefined to nextRunTime may clear it or leave it. */
  function Store(s: State, next: Option<int>, clears: bool): State {
    if next.Some? || clears then s.(stored := next) else s
  }

  function Next(succ: int -> Option<int>, s: State, step: Step): State
    requires Enabled(s, step)
  {
    match step
    case Begin(p, at) => SetPass(s, p, Walking(s.stored, at, 0))
    case Crash(p) => SetPass(s, p, Over)
    case Save(p, clears) => Store(SetPass(s, p, Over), s.passes[p].cursor, clears)
    case Advance(p) =>
      var me := s.passes[p];
      SetPass(s, p, Walking(succ(me.slot), me.now, me.count + 1))
    case UpdateSchedule(p, clears) =>
      var me := s.passes[p];
      Store(SetPass(s, p, Advancing(me.slot, me.now, me.count)), succ(me.slot), clears)
    case LoseUpdate(p) =>
      var me := s.passes[p];
      SetPass(s, p, Advancing(me.slot, me.now, me.count)).(raised := s.raised + {me.slot})
    case RaiseError(p) =>
      var me := s.passes[p];
      SetPass(s, p, Advancing(me.cursor.value, me.now, me.count)).(raised := s.raised + {me.cursor.value})
    case SkipRun(p) =>
      var me := s.passes[p];
      SetPass(s, p, Recording(me.cursor.value, me.now, me.count)).(skipped := s.skipped + {me.cursor.value})
    case CreateJob(p) =>
      var me := s.passes[p];
      if me.cursor.value in s.jobs then // the unique index refuses a second job
        SetPass(s, p, Advancing(me.cursor.value, me.now, me.count))
      else
        SetPass(s, p, Recording(me.cursor.value, me.now, me.count)).(jobs := s.jobs + [me.cursor.value])
  }

  ghost predicate Legal(succ: int -> Option<int>, s: State, steps: seq<Step>)
    decreases |steps|
  {
    steps == [] || (Enabled(s, steps[0]) && Legal(succ, Next(succ, s, steps[0]), steps[1..]))
  }

  function Exec(succ: int -> Option<int>, s: State, steps: seq<Step>): State
    requires Legal(succ, s, steps)
    decreases |steps|
  {
    if steps == [] then s else Exec(succ, Next(succ, s, steps[0]), steps[1..])
  }

  predicate Handled(s: State, slot: int) {
    slot in s.jobs || slot in s.skipped || slot in s.raised
  }

  /** The k-th slot that a walk from `start` comes to. */
  function Slot(succ: int -> Option<int>, start: Option<int>, k: nat): Option<int> {
    if k == 0 then start
    else
      var previous := Slot(succ, start, k - 1);
      if previous.None? then None else succ(previous.value)
  }

  /** `cursor` is the k-th slot of the walk and every slot before it is dealt with. */
  ghost predicate ReachedAt(succ: int -> Option<int>, start: Option<int>, s: State, cursor: Option<int>, k: nat) {
    && Slot(succ, start, k) == cursor
    && forall j | 0 <= j < k :: Slot(succ, start, j).Some? && Handled(s, Slot(succ, start, j).value)
  }

  ghost predicate Reached(succ: int -> Option<int>, start: Option<int>, s: State, cursor: Option<int>) {
    exists k: nat :: ReachedAt(succ, start, s, cursor, k)
  }

  ghost predicate PassFits(succ: int -> Option<int>, start: Option<int>, s: State, p: Pass) {
    match p
    case Walking(cursor, _, _) => Reached(succ, start, s, cursor)
    case Recording(slot, _, _) => Reached(succ, start, s, Some(slot)) && Handled(s, slot)
    case Advancing(slot, _, _) => Reached(succ, start, s, Some(slot)) && Handled(s, slot)
    case Over => true
  }

  ghost predicate Distinct(slots: seq<int>) {
    forall j, k | 0 <= j < k < |slots| :: slots[j] != slots[k]
  }

  ghost predicate SlotsInv(succ: int -> Option<int>, start: Option<int>, s: State) {
    && Distinct(s.jobs)
    && Reached(succ, start, s, s.stored)
    && forall p | p in s.passes :: PassFits(succ, start, s, s.passes[p])
  }

  ghost predicate KeepsHandled(s: State, t: State) {
    forall slot | Handled(s, slot) :: Handled(t, slot)
  }

  lemma ReachedStays(succ: int -> Option<int>, start: Option<int>, s: State, t: State, cursor: Option<int>)
    requires Reached(succ, start, s, cursor) && KeepsHandled(s, t)
    ensures Reached(succ, start, t, cursor)
  {
    var k: nat :| ReachedAt(succ, start, s, cursor, k);
    assert ReachedAt(succ, start, t, cursor, k);
  }

  lemma ReachedNext(succ: int -> Option<int>, start: Option<int>, s: State, slot: int)
    requires Reached(succ, start, s, Some(slot)) && Handled(s, slot)
    ensures Reached(succ, start, s, succ(slot))
  {
    var k: nat :| ReachedAt(succ, start, s, Some(slot), k);
    assert ReachedAt(succ, start, s, succ(slot), k + 1);
  }

  /** The pass that moves fits where it moved to. */
  lemma MoverFits(succ: int -> Option<int>, start: Option<int>, s: State, step: Step)
    requires SlotsInv(succ, start, s) && Enabled(s, step)
    ensures var t := Next(succ, s, step);
            && KeepsHandled(s, t) && Distinct(t.jobs)
            && step.pass in t.passes && t.passes == s.passes[step.pass := t.passes[step.pass]]
            && PassFits(succ, start, t, t.passes[step.pass])
            && Reached(succ, start, t, t.stored)
  {
    var t := Next(succ, s, step);
    assert forall slot | slot in s.jobs :: slot in t.jobs;
    ReachedStays(succ, start, s, t, s.stored);
    if step.Begin? { return; }
    var me := s.passes[step.pass];
    assert PassFits(succ, start, s, me);
    match step
    case CreateJob(_) =>
      ReachedStays(succ, start, s, t, me.cursor);
      assert me.cursor.value !in s.jobs ==> t.jobs[|s.jobs|] == me.cursor.value;
    case SkipRun(_) => ReachedStays(succ, start, s, t, me.cursor);
    case RaiseError(_) => ReachedStays(succ, start, s, t, me.cursor);
    case LoseUpdate(_) => ReachedStays(succ, start, s, t, Some(me.slot));
    case UpdateSchedule(_, _) =>
      ReachedStays(succ, start, s, t, Some(me.slot));
      ReachedNext(succ, start, t, me.slot);
    case Advance(_) =>
      ReachedStays(succ, start, s, t, Some(me.slot));
      ReachedNext(succ, start, t, me.slot);
    case Save(_, _) => ReachedStays(succ, start, s, t, me.cursor);
    case Crash(_) =>
  }

  lemma SlotsStep(succ: int -> Option<int>, start: Option<int>, s: State, step: Step)
    requires SlotsInv(succ, start, s) && Enabled(s, step)
    ensures SlotsInv(succ, start, Next(succ, s, step))
  {
    var t := Next(succ, s, step);
    MoverFits(succ, start, s, step);
    forall p | p in t.passes
      ensures PassFits(succ, start, t, t.passes[p])
    {
      if p != step.pass {
        match s.passes[p]
        case Walking(cursor, _, _) => ReachedStays(succ, start, s, t, cursor);
        case Recording(slot, _, _) => ReachedStays(succ, start, s, t, Some(slot));
        case Advancing(slot, _, _) => ReachedStays(succ, start, s, t, Some(slot));
        case Over =>
      }
    }
  }

  lemma {:induction false} SlotsRun(succ: int -> Option<int>, start: Option<int>, s: State, steps: seq<Step>)
    requires SlotsInv(succ, start, s) && Legal(succ, s, steps)
    ensures SlotsInv(succ, start, Exec(succ, s, steps))
    decreases |steps|
  {
    if steps != [] {
      SlotsStep(succ, start, s, steps[0]);
      SlotsRun(succ, start, Next(succ, s, steps[0]), steps[1..]);
    }
  }

  predicate IsStart(s: State) {
    s.jobs == [] && s.skipped == {} && s.raised == {} && s.passes == map[]
  }

  lemma {:induction false} SlotsIncrease(succ: int -> Option<int>, start: Option<int>, j: nat, k: nat)
    requires (forall x :: succ(x).Some? ==> succ(x).value > x) && j < k && Slot(succ, start, k).Some?
    ensures Slot(succ, start, j).Some? && Slot(succ, start, j).value < Slot(succ, start, k).value
  {
    var previous := Slot(succ, start, k - 1).value;
    assert succ(previous).Some?;
    if j < k - 1 {
      SlotsIncrease(succ, start, j, k - 1);
    }
  }

  lemma {:induction false} NothingAfterTheEnd(succ: int -> Option<int>, start: Option<int>, j: nat, k: nat)
    requires j <= k && Slot(succ, start, j).None?
    ensures Slot(succ, start, k).None?
    decreases k
  {
    if j < k {
      NothingAfterTheEnd(succ, start, j, k - 1);
    }
  }

  /** In any run, with passes cut short anywhere, each slot gets at most one job: the unique index sees to it. */
  lemma OneJobPerSlot(cron: string, s: State, steps: seq<Step>, j: nat, k: nat)
    requires IsStart(s) && Legal(SuccessorOf(cron), s, steps) && j < k < |Exec(SuccessorOf(cron), s, steps).jobs|
    ensures Exec(SuccessorOf(cron), s, steps).jobs[j] != Exec(SuccessorOf(cron), s, steps).jobs[k]
  {
    assert ReachedAt(SuccessorOf(cron), s.stored, s, s.stored, 0);
    SlotsRun(SuccessorOf(cron), s.stored, s, steps);
  }

  lemma PassedSlotsAreHandled(succ: int -> Option<int>, s: State, steps: seq<Step>, j: nat)
    requires forall x :: succ(x).Some? ==> succ(x).value > x
    requires IsStart(s) && Legal(succ, s, steps) && Slot(succ, s.stored, j).Some?
    requires var stored := Exec(succ, s, steps).stored; stored.None? || Slot(succ, s.stored, j).value < stored.value
    ensures Handled(Exec(succ, s, steps), Slot(succ, s.stored, j).value)
  {
    assert ReachedAt(succ, s.stored, s, s.stored, 0);
    SlotsRun(succ, s.stored, s, steps);
    var t := Exec(succ, s, steps);
    var k: nat :| ReachedAt(succ, s.stored, t, t.stored, k);
    if k <= j {
      if t.stored.None? {
        NothingAfterTheEnd(succ, s.stored, k, j);
      } else if k < j {
        SlotsIncrease(succ, s.stored, k, j);
      }
    }
  }

  /** Main result: nextRunTime never passes a slot of the walk that has no job, skipped run or raised error. */
  lemma NoSlotIsLost(cron: string, s: State, steps: seq<Step>, j: nat)
    requires IsStart(s) && Legal(SuccessorOf(cron), s, steps) && Slot(SuccessorOf(cron), s.stored, j).Some?
    requires var stored := Exec(SuccessorOf(cron), s, steps).stored;
             stored.None? || Slot(SuccessorOf(cron), s.stored, j).value < stored.value
    ensures Handled(Exec(SuccessorOf(cron), s, steps), Slot(SuccessorOf(cron), s.stored, j).value)
  {
    forall x
      ensures SuccessorOf(cron)(x).Some? ==> SuccessorOf(cron)(x).value > x
    {
      SuccessorIsLater(cron, x);
    }
    PassedSlotsAreHandled(SuccessorOf(cron), s, steps, j);
  }

  /** The slots of this walk are the ones that CatchUp attempts. */
  lemma {:induction false} WalkFollowsSlots(succ: int -> Option<int>, start: Option<int>, now: int, left: nat, k: nat)
    requires k < |Walk(succ, start, now, left).0|
    ensures Slot(succ, start, k) == Some(Walk(succ, start, now, left).0[k])
    decreases left
  {
    if k > 0 {
      var next := succ(start.value);
      WalkFollowsSlots(succ, next, now, left - 1, k - 1);
      ShiftSlot(succ, start, k);
    }
  }

  // ---- one pass among others ------------------------------------------------------------

  /** The pass that began at `start` has made `count` of the walk's attempts and stands before the rest. */
  ghost predicate StandsAt(succ: int -> Option<int>, start: Option<int>, at: int, cursor: Option<int>, count: nat) {
    && count <= 24
    && var whole, rest := Walk(succ, start, at, 24), Walk(succ, cursor, at, 24 - count);
       count <= |whole.0| && whole.0[count..] == rest.0 && whole.1 == rest.1
  }

  ghost predicate OnWalk(succ: int -> Option<int>, start: Option<int>, at: int, p: Pass) {
    match p
    case Walking(cursor, now, count) => now == at && StandsAt(succ, start, at, cursor, count)
    case Recording(slot, now, count) => now == at && slot <= at && count < 24 && StandsAt(succ, start, at, Some(slot), count)
    case Advancing(slot, now, count) => now == at && slot <= at && count < 24 && StandsAt(succ, start, at, Some(slot), count)
    case Over => true
  }

  lemma WalksOn(succ: int -> Option<int>, start: Option<int>, at: int, slot: int, count: nat)
    requires StandsAt(succ, start, at, Some(slot), count) && slot <= at && count < 24
    ensures StandsAt(succ, start, at, succ(slot), count + 1)
    ensures Walk(succ, start, at, 24).0[count] == slot
  {
    var whole, rest := Walk(succ, start, at, 24), Walk(succ, Some(slot), at, 24 - count);
    var later := Walk(succ, succ(slot), at, 24 - count - 1);
    assert rest.0 == [slot] + later.0 && rest.1 == later.1;
    assert whole.0[count..][0] == slot && whole.0[count..][1..] == later.0;
    assert whole.0[count + 1..] == whole.0[count..][1..];
  }

  lemma PassStep(succ: int -> Option<int>, start: Option<int>, at: int, s: State, p: PassId, step: Step)
    requires p in s.passes && OnWalk(succ, start, at, s.passes[p]) && Enabled(s, step)
    ensures p in Next(succ, s, step).passes && OnWalk(succ, start, at, Next(succ, s, step).passes[p])
  {
    if step.pass == p && step.Advance? {
      WalksOn(succ, start, at, s.passes[p].slot, s.passes[p].count);
    }
  }

  /**
   Main result: whatever other passes do, a pass that began with `start` at time `at` makes the walk's attempts one
   after another, and when it saves it has made all of them and stores the walk's end.
   */
  lemma {:induction false} PassFollowsWalk(succ: int -> Option<int>, s: State, steps: seq<Step>, p: PassId, start: Option<int>, at: int)
    requires Legal(succ, s, steps) && p in s.passes && OnWalk(succ, start, at, s.passes[p])
    ensures var t := Exec(succ, s, steps);
            && p in t.passes && OnWalk(succ, start, at, t.passes[p])
            && (MayAttempt(t.passes[p]) ==>
                  && t.passes[p].count < |Walk(succ, start, at, 24).0|
                  && t.passes[p].cursor == Some(Walk(succ, start, at, 24).0[t.passes[p].count]))
            && (Enabled(t, Save(p, true)) ==>
                  && t.passes[p].count == |Walk(succ, start, at, 24).0|
                  && Next(succ, t, Save(p, true)).stored == Walk(succ, start, at, 24).1)
            && (Enabled(t, Save(p, false)) ==>
                  Next(succ, t, Save(p, false)).stored
                  == if Walk(succ, start, at, 24).1.Some? then Walk(succ, start, at, 24).1 else t.stored)
    decreases |steps|
  {
    if steps == [] {
      if MayAttempt(s.passes[p]) { WalksOn(succ, start, at, s.passes[p].cursor.value, s.passes[p].count); }
    } else {
      PassStep(succ, start, at, s, p, steps[0]);
      PassFollowsWalk(succ, Next(succ, s, steps[0]), steps[1..], p, start, at);
    }
  }

  /** A pass begins exactly if the walk has something to attempt, and it begins at the stored time. */
  lemma BeginsIffDue(succ: int -> Option<int>, s: State, p: PassId, at: int)
    requires p !in s.passes
    ensures Enabled(s, Begin(p, at)) <==> Walk(succ, s.stored, at, 24).0 != []
    ensures Enabled(s, Begin(p, at)) ==> OnWalk(succ, s.stored, at, Next(succ, s, Begin(p, at)).passes[p])
  {
  }

  /** After a run was stored, the schedule moves on to the slot's successor, or keeps its time if there is none to store. */
  lemma UpdateMovesOn(succ: int -> Option<int>, s: State, p: PassId, clears: bool)
    requires Enabled(s, UpdateSchedule(p, clears))
    ensures var t, slot := Next(succ, s, UpdateSchedule(p, clears)), s.passes[p].slot;
            && t.passes[p] == Advancing(slot, s.passes[p].now, s.passes[p].count)
            && (succ(slot).Some? ==> t.stored == succ(slot))
            && (succ(slot).None? ==> t.stored == if clears then None else s.stored)
  {
  }

  lemma {:induction false} ShiftSlot(succ: int -> Option<int>, start: Option<int>, k: nat)
    requires k > 0 && start.Some?
    ensures Slot(succ, start, k) == Slot(succ, succ(start.value), k - 1)
  {
    if k > 1 {
      ShiftSlot(succ, start, k - 1);
    }
  }
}
