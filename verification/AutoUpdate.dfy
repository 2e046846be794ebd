/**
 One managed app and its finished update operations (src/lib/apps/auto-update.ts): the guarded update that takes an
 outcome over, and what it means to count outcomes once.
 */
module AutoUpdates {
  import opened Wrappers

  const BATCH_LIMIT := 100
  const MINUTE_MS := 60_000

  type OperationId = nat

  datatype Status = Succeeded | Unchanged | Failed | Cancelled

  datatype Operation = Operation(
    id: OperationId,
    status: Status,
    automatic: bool,
    generation: Option<nat>,
    scheduledFor: Option<int>,
    completedAt: int,
    configurationError: bool
  )

  /** The fields of the app's autoUpdate record that decide or count something. */
  datatype App = App(
    enabled: bool,
    generation: nat,
    interval: nat,
    nextRunAt: Option<int>,
    retryAt: Option<int>,
    lastOperation: Option<OperationId>,
    lastProjected: Option<OperationId>,
    failures: nat
  )

  function Min(a: int, b: int): int { if a < b then a else b }
  function Max(a: int, b: int): int { if a < b then b else a }

  function RetryMinutes(failures: nat, interval: nat): nat {
    var delays := [1, 5, 15, 60];
    var k := Max(0, failures - 1);
    if k < |delays| then delays[k] else interval
  }

  function NextRetryAt(failedAt: int, failures: nat, interval: nat): int {
    failedAt + Min(RetryMinutes(failures, interval), interval) * MINUTE_MS
  }

  /** More failures never shorten the wait, and the wait never exceeds the app's own interval. */
  lemma RetriesBackOff(failedAt: int, fewer: nat, more: nat, interval: nat)
    requires fewer <= more
    ensures failedAt <= NextRetryAt(failedAt, fewer, interval) <= NextRetryAt(failedAt, more, interval)
            <= failedAt + interval * MINUTE_MS
    ensures more > 4 ==> NextRetryAt(failedAt, more, interval) == failedAt + interval * MINUTE_MS
  {
    var a, b := Min(RetryMinutes(fewer, interval), interval), Min(RetryMinutes(more, interval), interval);
    assert 0 <= a <= b <= interval;
  }

  /** The filter of the app's update, evaluated on the document found at that moment. */
  predicate Accepts(app: App, read: App, op: Operation) {
    && app.generation == op.generation.GetOr(read.generation)
    && app.lastProjected != Some(op.id)
    && (app.lastOperation == Some(op.id) || app.lastOperation == None
        || (op.scheduledFor.Some? && app.nextRunAt == op.scheduledFor))
  }

  /** The app after an outcome was taken over; `read` is the document the values were computed from. */
  function Outcome(app: App, read: App, op: Operation): App {
    var failures := if op.status == Failed then read.failures + 1 else 0;
    var next := if op.status == Failed && !op.configurationError
                then NextRetryAt(op.completedAt, failures, read.interval)
                else op.completedAt + read.interval * MINUTE_MS;
    app.(lastProjected := Some(op.id),
         lastOperation := Some(op.id),
         failures := failures,
         nextRunAt := if read.enabled then Some(next) else app.nextRunAt,
         retryAt := if op.status != Failed then None else if read.enabled then Some(next) else app.retryAt)
  }

  function Project(app: App, read: App, op: Operation): App {
    if Accepts(app, read, op) then Outcome(app, read, op) else app
  }

  /** The waits after one failure, two, three and four in a row; from the fifth on it is the app's interval. */
  const WAITS := [1, 5, 15, 60]

  /**
   What an outcome that is taken over leaves behind. A disabled app keeps its times, except that a retry is over with
   any success. Otherwise the next run is one interval after the operation's end, and sooner after a failure that
   another attempt may mend: never later than the interval, and as the waits say.
   */
  lemma OutcomeSchedules(app: App, op: Operation)
    requires Accepts(app, app, op) && !op.status.Cancelled?
    ensures var after := Project(app, app, op);
            && after.failures == (if op.status.Failed? then app.failures + 1 else 0)
            && after.lastOperation == Some(op.id) && after.lastProjected == Some(op.id)
            && after.enabled == app.enabled && after.generation == app.generation && after.interval == app.interval
            && (!app.enabled ==> after.nextRunAt == app.nextRunAt)
            && (after.retryAt == if !op.status.Failed? then None else if app.enabled then after.nextRunAt else app.retryAt)
            && (app.enabled && (!op.status.Failed? || op.configurationError) ==>
                  after.nextRunAt == Some(op.completedAt + app.interval * 60_000))
            && (app.enabled && op.status.Failed? && !op.configurationError ==>
                  && after.nextRunAt.Some?
                  && (app.failures < 4 && WAITS[app.failures] < app.interval ==>
                        after.nextRunAt.value == op.completedAt + WAITS[app.failures] * 60_000)
                  && (app.failures >= 4 || WAITS[app.failures] >= app.interval ==>
                        after.nextRunAt.value == op.completedAt + app.interval * 60_000))
  {
  }

  /** A cancelled automatic operation only moves its slot on. */
  function MoveSlot(app: App, op: Operation, now: int): App {
    if app.enabled && op.generation == Some(app.generation) && op.scheduledFor.Some? && app.nextRunAt == op.scheduledFor
    then app.(nextRunAt := Some(Max(now, op.scheduledFor.value + 1)), retryAt := None)
    else app
  }

  /** Replaying a cancelled automatic operation changes nothing, at whatever later time. */
  lemma CancelledReplayIsNoOp(app: App, op: Operation, now: int, later: int)
    ensures MoveSlot(MoveSlot(app, op, now), op, later) == MoveSlot(app, op, now)
    ensures MoveSlot(app, op, now) != app ==> MoveSlot(app, op, now).nextRunAt.GetOr(0) > op.scheduledFor.GetOr(0)
  {
  }

  /**
   A slot moves exactly if automatic updates are still on in the same generation and the app still waits for that slot.
   It moves to now, or a millisecond past itself if it is not due yet, and a pending retry is dropped.
   */
  lemma MovesSlotIff(app: App, op: Operation, now: int)
    ensures if op.generation == Some(app.generation) && app.enabled && op.scheduledFor.Some? && app.nextRunAt == op.scheduledFor
            then MoveSlot(app, op, now) == app.(nextRunAt := MoveSlot(app, op, now).nextRunAt, retryAt := None)
                 && MoveSlot(app, op, now).nextRunAt
                    == Some(if now > op.scheduledFor.value then now else op.scheduledFor.value + 1)
            else MoveSlot(app, op, now) == app
  {
  }

  // ---- counting -----------------------------------------------------------------------

  predicate Distinct(finished: seq<Operation>) {
    forall i, j | 0 <= i < j < |finished| :: finished[i].id != finished[j].id
  }

  ghost predicate Ascending(s: seq<nat>, bound: nat) {
    && (forall i, j | 0 <= i < j < |s| :: s[i] < s[j])
    && (forall i | 0 <= i < |s| :: s[i] < bound)
  }

  /** `n` operations at the end failed and the one before them, if any, did not. */
  ghost predicate IsTrailingRun(finished: seq<Operation>, applied: seq<nat>, n: nat)
    requires forall i | 0 <= i < |applied| :: applied[i] < |finished|
  {
    && n <= |applied|
    && (forall i | |applied| - n <= i < |applied| :: finished[applied[i]].status == Failed)
    && (n < |applied| ==> finished[applied[|applied| - 1 - n]].status != Failed)
  }

  lemma TrailingRunGrows(finished: seq<Operation>, applied: seq<nat>, n: nat, at: nat)
    requires at < |finished| && forall i | 0 <= i < |applied| :: applied[i] < |finished|
    requires IsTrailingRun(finished, applied, n)
    ensures IsTrailingRun(finished, applied + [at], if finished[at].status == Failed then n + 1 else 0)
  {
    var longer := applied + [at];
    assert longer[|longer| - 1] == at;
    if finished[at].status == Failed && n < |applied| {
      assert longer[|longer| - 2 - n] == applied[|applied| - 1 - n];
    }
  }

  /** Positions of the operations without a projection mark, in finishing order. */
  function Unprojected(n: nat, projected: set<nat>): (r: seq<nat>)
    ensures Ascending(r, n)
    ensures forall i :: i in r <==> 0 <= i < n && i !in projected
  {
    if n == 0 then [] else Unprojected(n - 1, projected) + if n - 1 in projected then [] else [n - 1]
  }

  /**
   No outcome is counted twice (the positions in `applied` strictly increase), outcomes are taken over in
   finishing order, and the failure counter is the trailing run of failures. An outcome without its mark can
   only be the newest one.
  */
  ghost predicate Counted(app: App, finished: seq<Operation>, projected: set<nat>, applied: seq<nat>) {
    && Distinct(finished)
    && (forall i | i in projected :: i < |finished|)
    && Ascending(applied, |finished|)
    && (forall i | 0 <= i < |applied| :: !finished[applied[i]].status.Cancelled?)
    && IsTrailingRun(finished, applied, app.failures)
    && app.lastProjected == (if applied == [] then None else Some(finished[applied[|applied| - 1]].id))
    && (applied != [] ==> forall i | 0 <= i < applied[|applied| - 1] :: i in projected)
  }

  lemma FirstUnmarkedIsNewest(app: App, finished: seq<Operation>, projected: set<nat>, applied: seq<nat>, at: nat)
    requires Counted(app, finished, projected, applied)
    requires at !in projected
    ensures applied != [] ==> applied[|applied| - 1] <= at
    ensures at in applied ==> applied[|applied| - 1] == at
  {
    if at in applied {
      var k :| 0 <= k < |applied| && applied[k] == at;
      assert k < |applied| - 1 ==> applied[k] < applied[|applied| - 1];
    }
  }

  /** Main result: the first unmarked outcome is counted if it was not before, and replaying it changes nothing. */
  lemma TakingOverCountsOnce(app: App, read: App, finished: seq<Operation>, projected: set<nat>, applied: seq<nat>, at: nat)
    requires Counted(app, finished, projected, applied)
    requires at < |finished| && at !in projected && !finished[at].status.Cancelled?
    requires forall i | 0 <= i < at :: i in projected
    requires read.failures == app.failures
    ensures at in applied ==> !Accepts(app, read, finished[at])
    ensures Accepts(app, read, finished[at]) ==>
              Counted(Project(app, read, finished[at]), finished, projected, applied + [at])
  {
    FirstUnmarkedIsNewest(app, finished, projected, applied, at);
    if Accepts(app, read, finished[at]) {
      var longer := applied + [at];
      assert applied != [] ==> applied[|applied| - 1] < at;
      assert Ascending(longer, |finished|);
      TrailingRunGrows(finished, applied, app.failures, at);
      assert forall i | 0 <= i < |longer| :: !finished[longer[i]].status.Cancelled?;
      assert longer[|longer| - 1] == at;
    }
  }

  lemma MarkingKeepsCount(app: App, finished: seq<Operation>, projected: set<nat>, applied: seq<nat>, at: nat)
    requires Counted(app, finished, projected, applied) && at < |finished|
    ensures Counted(app, finished, projected + {at}, applied)
  {
  }

  /** What one undisturbed projection makes of the app. */
  function Replay(app: App, op: Operation, now: int): App {
    if !op.status.Cancelled? then Project(app, app, op) else if op.automatic then MoveSlot(app, op, now) else app
  }

  /** A cancelled operation touches nothing if it was manual, and at most its slot if it was automatic. */
  lemma CancelledLeavesCounts(app: App, op: Operation, now: int)
    requires op.status.Cancelled?
    ensures var after := Replay(app, op, now);
            && after == app.(nextRunAt := after.nextRunAt, retryAt := after.retryAt)
            && (!op.automatic ==> after == app)
            && (op.automatic ==> after == MoveSlot(app, op, now))
  {
  }

  /** The operations at the positions `batch`, replayed one after another. */
  function ReplayAll(app: App, finished: seq<Operation>, batch: seq<nat>, clock: nat -> int): App
    requires forall k | 0 <= k < |batch| :: batch[k] < |finished|
    decreases |batch|
  {
    if batch == [] then app
    else ReplayAll(Replay(app, finished[batch[0]], clock(batch[0])), finished, batch[1..], clock)
  }
}
