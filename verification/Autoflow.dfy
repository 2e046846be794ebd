/** The autoflow state machine: what advanceAutoflows does to one running flow in one tick. */
module Autoflows {
  import opened Wrappers
  import opened Jobs

  type RunId = nat

  datatype ItemStatus = Pending | ItemQueued | ItemRunning | ItemCompleted | ItemFailed | ItemSkipped | ItemCanceled

  datatype Item = Item(status: ItemStatus, runId: Option<RunId>)

  datatype Mode = Sequential | Parallel

  datatype FlowStatus = Draft | FlowRunning | FlowCompleted | FlowFailed | FlowCanceled

  datatype Flow = Flow(mode: Mode, continueOnFailure: bool, status: FlowStatus, items: seq<Item>)

  /** How enqueueRunRequest ends for an item. */
  datatype Answer = RunCreated(runId: RunId) | RunSkippedByLock(runId: RunId) | EnqueueFails

  type Runs = RunId -> Option<RunStatus>
  type Answers = int -> Answer

  predicate IsActiveItem(i: Item) {
    i.status == ItemQueued || i.status == ItemRunning
  }

  predicate IsFinal(i: Item) {
    i.status != Pending && !IsActiveItem(i)
  }

  predicate HasFailed(items: seq<Item>) {
    exists k | 0 <= k < |items| :: items[k].status == ItemFailed
  }

  predicate HasActive(items: seq<Item>) {
    exists k | 0 <= k < |items| :: IsActiveItem(items[k])
  }

  function PendingSet(items: seq<Item>): set<int> {
    set k | 0 <= k < |items| && items[k].status == Pending
  }

  function ActiveSet(items: seq<Item>): set<int> {
    set k | 0 <= k < |items| && IsActiveItem(items[k])
  }

  /** An item takes over what became of its run. */
  function Refresh(item: Item, runs: Runs): Item {
    if item.runId.None? || !IsActiveItem(item) || runs(item.runId.value).None? then item
    else
      match runs(item.runId.value).value
      case RunQueued => item.(status := ItemQueued)
      case RunRetrying => item.(status := ItemQueued)
      case RunRunning => item.(status := ItemRunning)
      case RunCompleted => item.(status := ItemCompleted)
      case RunSkipped => item.(status := ItemSkipped)
      case RunKilled => item.(status := ItemCanceled)
      case RunFailed => item.(status := ItemFailed)
      case RunTimeout => item.(status := ItemFailed)
  }

  function RefreshAll(items: seq<Item>, runs: Runs): (r: seq<Item>)
    ensures |r| == |items| && forall k | 0 <= k < |r| :: r[k] == Refresh(items[k], runs)
  {
    seq(|items|, k requires 0 <= k < |items| => Refresh(items[k], runs))
  }

  function SkipPending(items: seq<Item>): (r: seq<Item>)
    ensures |r| == |items|
    ensures forall k | 0 <= k < |r| :: r[k] == if items[k].status == Pending then items[k].(status := ItemSkipped) else items[k]
  {
    seq(|items|, k requires 0 <= k < |items| => if items[k].status == Pending then items[k].(status := ItemSkipped) else items[k])
  }

  /** Indexes of pending items from `from` on, in order. */
  function PendingFrom(items: seq<Item>, from: nat): (todo: seq<int>)
    ensures forall k | 0 <= k < |todo| :: from <= todo[k] < |items| && items[todo[k]].status == Pending
    ensures forall k, l | 0 <= k < l < |todo| :: todo[k] < todo[l]
    ensures forall x | from <= x < |items| && items[x].status == Pending :: x in todo
    decreases |items| - from
  {
    if from >= |items| then []
    else if items[from].status == Pending then [from] + PendingFrom(items, from + 1)
    else PendingFrom(items, from + 1)
  }

  function Answered(item: Item, answer: Answer): Item {
    match answer
    case RunCreated(id) => Item(ItemQueued, Some(id))
    case RunSkippedByLock(id) => Item(ItemSkipped, Some(id))
    case EnqueueFails => item.(status := ItemFailed)
  }

  function ItemsToQueue(flow: Flow, items: seq<Item>): seq<int> {
    var pending := PendingFrom(items, 0);
    if flow.mode == Parallel || pending == [] then pending else pending[..1]
  }

  /** Enqueue the items at `todo` one after another; a failure ends the loop unless the flow continues on failure. */
  function QueueItems(items: seq<Item>, todo: seq<int>, answers: Answers, stops: bool): (r: (seq<Item>, seq<int>))
    requires forall k | 0 <= k < |todo| :: 0 <= todo[k] < |items|
    ensures |r.0| == |items|
    decreases |todo|
  {
    if todo == [] then (items, [])
    else
      var i := todo[0];
      var next := items[i := Answered(items[i], answers(i))];
      if answers(i).EnqueueFails? && stops then (next, [i])
      else
        var (rest, enqueued) := QueueItems(next, todo[1..], answers, stops);
        (rest, [i] + enqueued)
  }

  /** One tick of a running flow: the stored flow afterwards, and the items for which a run was requested. */
  function Tick(flow: Flow, runs: Runs, answers: Answers): (Flow, seq<int>) {
    Proceed(flow, RefreshAll(flow.items, runs), answers)
  }

  /** The tick from the refreshed items on. */
  function Proceed(flow: Flow, items: seq<Item>, answers: Answers): (Flow, seq<int>) {
    if HasFailed(items) && !flow.continueOnFailure then
      (flow.(items := SkipPending(items), status := FlowFailed), [])
    else if PendingSet(items) == {} && !HasActive(items) then
      (flow.(items := items, status := if HasFailed(items) then FlowFailed else FlowCompleted), [])
    else if HasActive(items) && flow.mode == Sequential then
      (flow.(items := items), [])
    else
      var (queued, enqueued) := QueueItems(items, ItemsToQueue(flow, items), answers, !flow.continueOnFailure);
      (flow.(items := queued), enqueued)
  }

  /** No item before the index is pending, and the one at the index is, unless none is at all. */
  predicate IsFirstPending(items: seq<Item>, index: int) {
    && 0 <= index <= |items| && (forall k | 0 <= k < index :: items[k].status != Pending)
    && (index < |items| ==> items[index].status == Pending)
  }

  // ---- what the runs decide -------------------------------------------------------------

  /** The item waits for its run, which is in one of the given states. */
  predicate RunIsIn(item: Item, runs: Runs, states: set<RunStatus>) {
    && (item.status == ItemQueued || item.status == ItemRunning) && item.runId.Some?
    && runs(item.runId.value).Some? && runs(item.runId.value).value in states
  }

  /** The item has failed, or its run failed or ran over time. */
  predicate Dead(item: Item, runs: Runs) {
    item.status == ItemFailed || RunIsIn(item, runs, {RunFailed, RunTimeout})
  }

  /** The item still has to be started, or its run is not over as far as anyone knows. */
  predicate Open(item: Item, runs: Runs) {
    || item.status == Pending
    || ((item.status == ItemQueued || item.status == ItemRunning)
        && !RunIsIn(item, runs, {RunCompleted, RunSkipped, RunKilled, RunFailed, RunTimeout}))
  }

  /** `later` is `was` after its run was looked up. */
  predicate FollowsRun(was: Item, later: Item, runs: Runs) {
    && later.runId == was.runId && (later.status == Pending <==> was.status == Pending)
    && (later.status == ItemFailed <==> Dead(was, runs))
    && (later.status == ItemCompleted <==> was.status == ItemCompleted || RunIsIn(was, runs, {RunCompleted}))
    && (later.status == ItemSkipped <==> was.status == ItemSkipped || RunIsIn(was, runs, {RunSkipped}))
    && (later.status == ItemCanceled <==> was.status == ItemCanceled || RunIsIn(was, runs, {RunKilled}))
    && (RunIsIn(was, runs, {RunQueued, RunRetrying}) ==> later.status == ItemQueued)
    && (RunIsIn(was, runs, {RunRunning}) ==> later.status == ItemRunning)
    && (was.runId.None? || runs(was.runId.value).None? ==> later == was)
  }

  predicate FollowRuns(items: seq<Item>, work: seq<Item>, runs: Runs) {
    |work| == |items| && forall k | 0 <= k < |items| :: FollowsRun(items[k], work[k], runs)
  }

  lemma RefreshFollowsRun(item: Item, runs: Runs)
    ensures FollowsRun(item, Refresh(item, runs), runs)
    ensures Open(item, runs) <==> Refresh(item, runs).status in {Pending, ItemQueued, ItemRunning}
  {
  }

  lemma AllFollowRuns(items: seq<Item>, runs: Runs)
    ensures FollowRuns(items, RefreshAll(items, runs), runs)
    ensures HasFailed(RefreshAll(items, runs)) <==> exists k | 0 <= k < |items| :: Dead(items[k], runs)
    ensures PendingSet(RefreshAll(items, runs)) == {} && !HasActive(RefreshAll(items, runs)) <==>
            forall k | 0 <= k < |items| :: !Open(items[k], runs)
  {
    var r := RefreshAll(items, runs);
    forall k | 0 <= k < |items|
      ensures FollowsRun(items[k], r[k], runs)
      ensures Open(items[k], runs) <==> k in PendingSet(r) || IsActiveItem(r[k])
    {
      RefreshFollowsRun(items[k], runs);
    }
    if HasFailed(r) {
      var k :| 0 <= k < |r| && r[k].status == ItemFailed;
      assert Dead(items[k], runs);
    }
    if exists k | 0 <= k < |items| :: Dead(items[k], runs) {
      var k :| 0 <= k < |items| && Dead(items[k], runs);
      assert r[k].status == ItemFailed;
    }
    if PendingSet(r) == {} && !HasActive(r) {
      forall k | 0 <= k < |items|
        ensures !Open(items[k], runs)
      {
        assert k !in PendingSet(r) && !IsActiveItem(r[k]);
      }
    }
  }

  /**
   How a tick leaves a running flow. It fails on the first item that is dead, or with continueOnFailure once nothing is
   open, and it completes when nothing is open or dead.
   */
  ghost predicate EndsByRuns(items: seq<Item>, continueOnFailure: bool, runs: Runs, status: FlowStatus) {
    var dead := exists k | 0 <= k < |items| :: Dead(items[k], runs);
    var open := exists k | 0 <= k < |items| :: Open(items[k], runs);
    && (status == FlowFailed <==> dead && (!continueOnFailure || !open))
    && (status == FlowCompleted <==> !dead && !open)
    && (status == FlowRunning <==> open && (!dead || continueOnFailure))
  }

  /** Main result: how a tick ends a running flow, in terms of its items and their runs. */
  lemma TickEnds(flow: Flow, runs: Runs, answers: Answers)
    requires flow.status == FlowRunning
    ensures EndsByRuns(flow.items, flow.continueOnFailure, runs, Tick(flow, runs, answers).0.status)
  {
    AllFollowRuns(flow.items, runs);
  }

  /** The first loop of a tick, on a working copy of the items. */
  method RefreshItems(items: seq<Item>, runs: Runs) returns (work: seq<Item>, changed: bool)
    ensures work == RefreshAll(items, runs)
    ensures FollowRuns(items, work, runs)
    ensures !changed ==> work == items
  {
    work, changed := items, false;
    var i := 0;
    while i < |work|
      invariant 0 <= i <= |work| == |items|
      invariant forall k | 0 <= k < i :: work[k] == Refresh(items[k], runs)
      invariant forall k | i <= k < |work| :: work[k] == items[k]
      invariant !changed ==> work == items
    {
      var item := work[i];
      if item.runId.Some? && IsActiveItem(item) && runs(item.runId.value).Some? {
        var next := Refresh(item, runs);
        if next.status != ItemQueued || item.status != ItemQueued {
          work := work[i := next];
          changed := true;
        }
      }
      i := i + 1;
    }
    AllFollowRuns(items, runs);
  }

  // ---- the code -----------------------------------------------------------------------

  class Autoflow {
    const mode: Mode
    const continueOnFailure: bool
    var status: FlowStatus
    var items: seq<Item>
    var currentIndex: int

    constructor (m: Mode, goesOn: bool, initial: seq<Item>)
      ensures mode == m && continueOnFailure == goesOn && items == initial && status == Draft && currentIndex == 0
    {
      mode, continueOnFailure, items, status, currentIndex := m, goesOn, initial, Draft, 0;
    }

    function Contents(): Flow
      reads this
    {
      Flow(mode, continueOnFailure, status, items)
    }

    /** startAutoflow, after the runs of an earlier start have been killed. */
    method Start()
      modifies this
      ensures status == FlowRunning && currentIndex == 0 && |items| == |old(items)|
      ensures forall k | 0 <= k < |items| :: items[k] == Item(Pending, None)
    {
      status, currentIndex := FlowRunning, 0;
      items := seq(|items|, k => Item(Pending, None));
    }

    /** cancelAutoflow: nothing stays pending or active, and final items keep their status. */
    method Cancel()
      modifies this
      ensures status == FlowCanceled && |items| == |old(items)| && currentIndex == old(currentIndex)
      ensures forall k | 0 <= k < |items| ::
                items[k] == if old(items)[k].status in {ItemCompleted, ItemFailed, ItemSkipped, ItemCanceled} then old(items)[k]
                            else old(items)[k].(status := ItemCanceled)
    {
      status := FlowCanceled;
      var before := items;
      items := seq(|before|, k requires 0 <= k < |before| =>
        if IsFinal(before[k]) then before[k] else before[k].(status := ItemCanceled));
    }

    /** The body of advanceAutoflows for this flow. `run` and `answer` are the database's and the queue's answers. */
    method Advance(runs: Runs, answers: Answers) returns (enqueued: seq<int>)
      modifies this
      ensures (Contents(), enqueued) == Tick(old(Contents()), runs, answers)
      ensures old(status) == FlowRunning ==> EndsByRuns(old(items), continueOnFailure, runs, status)
      ensures enqueued != [] || currentIndex != old(currentIndex) ==> IsFirstPending(items, currentIndex)
    {
      if status == FlowRunning { TickEnds(Contents(), runs, answers); }
      var work, changed := RefreshItems(items, runs);
      enqueued := ProceedWith(work, changed, answers);
    }

    /** The rest of the body, with the working copy of the items. */
    method ProceedWith(work: seq<Item>, refreshed: bool, answers: Answers) returns (enqueued: seq<int>)
      requires !refreshed ==> work == items
      modifies this
      ensures (Contents(), enqueued) == Proceed(old(Contents()), work, answers)
      ensures enqueued != [] || currentIndex != old(currentIndex) ==> IsFirstPending(items, currentIndex)
    {
      enqueued := [];
      if HasFailed(work) && !continueOnFailure {
        items, status := SkipPending(work), FlowFailed;
        return;
      }
      if PendingSet(work) == {} && !HasActive(work) {
        items, status := work, if HasFailed(work) then FlowFailed else FlowCompleted;
        return;
      }
      if HasActive(work) && mode == Sequential {
        if refreshed { items := work; }
        return;
      }
      var queued, altered;
      enqueued, queued, altered := EnqueueItems(work, ItemsToQueue(Contents(), work), answers, !continueOnFailure);
      if refreshed || altered {
        var open := PendingFrom(queued, 0);
        FirstOfPending(queued, 0);
        currentIndex := if open == [] then |queued| else open[0];
        items := queued;
      }
    }
  }

  /** The result of a queueing loop that stands at `todo` with `enqueued` behind it. */
  function Resume(items: seq<Item>, enqueued: seq<int>, todo: seq<int>, answers: Answers, stops: bool): (seq<Item>, seq<int>)
    requires forall k | 0 <= k < |todo| :: 0 <= todo[k] < |items|
  {
    var rest := QueueItems(items, todo, answers, stops);
    (rest.0, enqueued + rest.1)
  }

  lemma QueueOneItem(items: seq<Item>, enqueued: seq<int>, todo: seq<int>, at: nat, answers: Answers, stops: bool)
    requires at < |todo| && forall k | 0 <= k < |todo| :: 0 <= todo[k] < |items|
    ensures var i := todo[at];
            var next := items[i := Answered(items[i], answers(i))];
            Resume(items, enqueued, todo[at..], answers, stops)
            == if answers(i).EnqueueFails? && stops then (next, enqueued + [i])
               else Resume(next, enqueued + [i], todo[at + 1..], answers, stops)
  {
    var i := todo[at];
    var next := items[i := Answered(items[i], answers(i))];
    assert todo[at..][1..] == todo[at + 1..];
    var later := QueueItems(next, todo[at + 1..], answers, stops).1;
    assert enqueued + ([i] + later) == enqueued + [i] + later;
  }

  /** The queueing loop of a tick, on the working copy. */
  method EnqueueItems(work: seq<Item>, todo: seq<int>, answers: Answers, stops: bool)
    returns (enqueued: seq<int>, queued: seq<Item>, altered: bool)
    requires forall k | 0 <= k < |todo| :: 0 <= todo[k] < |work|
    ensures (queued, enqueued) == QueueItems(work, todo, answers, stops)
    ensures !altered ==> queued == work && enqueued == []
  {
    ghost var whole := QueueItems(work, todo, answers, stops);
    queued, enqueued, altered := work, [], false;
    var i := 0;
    assert todo[0..] == todo && [] + whole.1 == whole.1;
    while i < |todo|
      invariant 0 <= i <= |todo| && |queued| == |work|
      invariant whole == Resume(queued, enqueued, todo[i..], answers, stops)
      invariant !altered ==> queued == work && enqueued == []
    {
      var index := todo[i];
      QueueOneItem(queued, enqueued, todo, i, answers, stops);
      queued, enqueued := queued[index := Answered(queued[index], answers(index))], enqueued + [index];
      altered := true;
      if answers(index).EnqueueFails? && stops {
        return;
      }
      i := i + 1;
    }
    assert todo[i..] == [] && enqueued + [] == enqueued;
  }

  // ---- order --------------------------------------------------------------------------

  /** Non-pending items come first, and at most one of all items is active. */
  ghost predicate InOrder(items: seq<Item>) {
    && (forall k, l | 0 <= k < l < |items| && items[k].status == Pending :: items[l].status == Pending)
    && (forall k, l | 0 <= k < l < |items| :: !(IsActiveItem(items[k]) && IsActiveItem(items[l])))
  }

  /** What a sequential flow keeps while it runs. */
  ghost predicate SequentialInv(flow: Flow) {
    && InOrder(flow.items)
    && (!flow.continueOnFailure && HasFailed(flow.items) ==> !HasActive(flow.items))
  }

  lemma RefreshKeeps(items: seq<Item>, runs: Runs)
    ensures var r := RefreshAll(items, runs);
            && PendingSet(r) == PendingSet(items) && ActiveSet(r) <= ActiveSet(items)
            && (forall k | 0 <= k < |items| && !IsActiveItem(items[k]) :: r[k] == items[k])
  {
  }

  /** The enqueued items carry their answers and the others are untouched. */
  ghost predicate QueuesExactly(items: seq<Item>, queued: seq<Item>, enqueued: seq<int>, answers: Answers) {
    && |queued| == |items|
    && (forall k | 0 <= k < |items| && k !in enqueued :: queued[k] == items[k])
    && (forall k | 0 <= k < |items| && k in enqueued :: queued[k] == Answered(items[k], answers(k)))
  }

  lemma QueueFirst(items: seq<Item>, i: int, queued: seq<Item>, enqueued: seq<int>, answers: Answers)
    requires 0 <= i < |items| && i !in enqueued
    requires QueuesExactly(items[i := Answered(items[i], answers(i))], queued, enqueued, answers)
    ensures QueuesExactly(items, queued, [i] + enqueued, answers)
  {
    forall k | 0 <= k < |items|
      ensures k in [i] + enqueued <==> k == i || k in enqueued
    {
    }
  }

  lemma {:induction false} EnqueuesPrefix(items: seq<Item>, todo: seq<int>, answers: Answers, stops: bool)
    requires forall k | 0 <= k < |todo| :: 0 <= todo[k] < |items|
    ensures var enqueued := QueueItems(items, todo, answers, stops).1;
            enqueued <= todo && (todo != [] ==> enqueued != [])
    decreases |todo|
  {
    if todo != [] && !(answers(todo[0]).EnqueueFails? && stops) {
      EnqueuesPrefix(items[todo[0] := Answered(items[todo[0]], answers(todo[0]))], todo[1..], answers, stops);
      assert todo == [todo[0]] + todo[1..];
    }
  }

  lemma NotAgain(todo: seq<int>, enqueued: seq<int>)
    requires todo != [] && (forall k, l | 0 <= k < l < |todo| :: todo[k] < todo[l]) && enqueued <= todo[1..]
    ensures todo[0] !in enqueued
  {
    forall k | 0 <= k < |enqueued|
      ensures enqueued[k] != todo[0]
    {
      assert enqueued[k] == todo[1..][k] == todo[k + 1];
    }
  }

  lemma {:induction false} QueueItemsKeeps(items: seq<Item>, todo: seq<int>, answers: Answers, stops: bool)
    requires forall k | 0 <= k < |todo| :: 0 <= todo[k] < |items|
    requires forall k, l | 0 <= k < l < |todo| :: todo[k] < todo[l]
    ensures var (queued, enqueued) := QueueItems(items, todo, answers, stops);
            enqueued <= todo && (todo != [] ==> enqueued != []) && QueuesExactly(items, queued, enqueued, answers)
    decreases |todo|
  {
    EnqueuesPrefix(items, todo, answers, stops);
    if todo != [] {
      var i := todo[0];
      var next := items[i := Answered(items[i], answers(i))];
      if answers(i).EnqueueFails? && stops {
        QueueFirst(items, i, next, [], answers);
        assert [i] + [] == [i];
      } else {
        QueueItemsKeeps(next, todo[1..], answers, stops);
        var (queued, enqueued) := QueueItems(next, todo[1..], answers, stops);
        NotAgain(todo, enqueued);
        QueueFirst(items, i, queued, enqueued, answers);
      }
    }
  }

  ghost predicate OnlyLastFails(enqueued: seq<int>, answers: Answers) {
    forall k | 0 <= k < |enqueued| - 1 :: !answers(enqueued[k]).EnqueueFails?
  }

  lemma OneMoreBefore(i: int, rest: seq<int>, answers: Answers)
    requires OnlyLastFails(rest, answers) && !answers(i).EnqueueFails?
    ensures OnlyLastFails([i] + rest, answers)
  {
    forall k | 0 <= k < |rest|
      ensures !answers(([i] + rest)[k]).EnqueueFails?
    {
      if k > 0 {
        assert ([i] + rest)[k] == rest[k - 1];
        assert !answers(rest[k - 1]).EnqueueFails?;
      }
    }
  }

  lemma {:induction false} OnlyLastMayFail(items: seq<Item>, todo: seq<int>, answers: Answers)
    requires forall k | 0 <= k < |todo| :: 0 <= todo[k] < |items|
    ensures OnlyLastFails(QueueItems(items, todo, answers, true).1, answers)
    decreases |todo|
  {
    if todo != [] && !answers(todo[0]).EnqueueFails? {
      var next := items[todo[0] := Answered(items[todo[0]], answers(todo[0]))];
      OnlyLastMayFail(next, todo[1..], answers);
      OneMoreBefore(todo[0], QueueItems(next, todo[1..], answers, true).1, answers);
    }
  }

  lemma SequentialTick(flow: Flow, runs: Runs, answers: Answers)
    requires flow.mode == Sequential && SequentialInv(flow)
    ensures SequentialInv(Tick(flow, runs, answers).0)
  {
    var items := RefreshAll(flow.items, runs);
    RefreshInOrder(flow.items, runs);
    if HasFailed(items) && !flow.continueOnFailure {
      NoActiveBesideFailed(flow, runs);
      SkipInOrder(items);
    } else if !HasActive(items) && PendingSet(items) != {} {
      SequentialQueue(flow, items, answers);
    }
  }

  /** The item after its run was requested. */
  predicate IsAnswered(later: Item, answer: Answer) {
    match answer
    case RunCreated(id) => later == Item(ItemQueued, Some(id))
    case RunSkippedByLock(id) => later == Item(ItemSkipped, Some(id))
    case EnqueueFails => later.status == ItemFailed
  }

  /** Requests go to pending items in order, from the first one on. */
  predicate RequestsInOrder(items: seq<Item>, enqueued: seq<int>) {
    && (forall k | k in enqueued :: 0 <= k < |items| && items[k].status == Pending)
    && (forall j, k | 0 <= j < |items| && items[j].status == Pending && k in enqueued && j < k :: j in enqueued)
  }

  lemma PrefixInOrder(items: seq<Item>, pending: seq<int>, enqueued: seq<int>)
    requires forall k | 0 <= k < |pending| :: 0 <= pending[k] < |items| && items[pending[k]].status == Pending
    requires forall k, l | 0 <= k < l < |pending| :: pending[k] < pending[l]
    requires forall k | 0 <= k < |items| && items[k].status == Pending :: k in pending
    requires enqueued <= pending
    ensures RequestsInOrder(items, enqueued)
  {
    forall j, k | 0 <= j < |items| && items[j].status == Pending && k in enqueued && j < k
      ensures j in enqueued
    {
      var b :| 0 <= b < |enqueued| && enqueued[b] == k;
      assert j in pending;
      var a :| 0 <= a < |pending| && pending[a] == j;
      assert pending[b] == k && a < b;
      assert enqueued[a] == j;
    }
  }

  lemma {:induction false} StopsOnlyAtFailure(items: seq<Item>, todo: seq<int>, answers: Answers, stops: bool)
    requires forall k | 0 <= k < |todo| :: 0 <= todo[k] < |items|
    ensures var enqueued := QueueItems(items, todo, answers, stops).1;
            enqueued == todo || (stops && exists k | k in enqueued :: answers(k).EnqueueFails?)
    decreases |todo|
  {
    if todo != [] {
      if answers(todo[0]).EnqueueFails? && stops {
        assert todo[0] in [todo[0]];
      } else {
        var next := items[todo[0] := Answered(items[todo[0]], answers(todo[0]))];
        StopsOnlyAtFailure(next, todo[1..], answers, stops);
        var rest := QueueItems(next, todo[1..], answers, stops).1;
        if rest != todo[1..] {
          var k :| k in rest && answers(k).EnqueueFails?;
          assert k in [todo[0]] + rest;
        }
      }
    }
  }

  /** What the queueing loop of a tick has requested. */
  lemma QueueingRequests(flow: Flow, items: seq<Item>, answers: Answers)
    ensures var enqueued := QueueItems(items, ItemsToQueue(flow, items), answers, !flow.continueOnFailure).1;
            && RequestsInOrder(items, enqueued)
            && (flow.mode == Sequential ==> |enqueued| <= 1)
            && (flow.mode == Parallel ==>
                  || (forall k | 0 <= k < |items| && items[k].status == Pending :: k in enqueued)
                  || (!flow.continueOnFailure && exists k | k in enqueued :: answers(k).EnqueueFails?))
  {
    var todo, stops := ItemsToQueue(flow, items), !flow.continueOnFailure;
    EnqueuesPrefix(items, todo, answers, stops);
    StopsOnlyAtFailure(items, todo, answers, stops);
    PrefixInOrder(items, PendingFrom(items, 0), QueueItems(items, todo, answers, stops).1);
  }

  lemma RefreshKeepsOrder(items: seq<Item>, runs: Runs, enqueued: seq<int>)
    requires RequestsInOrder(RefreshAll(items, runs), enqueued)
    ensures RequestsInOrder(items, enqueued)
  {
    RefreshKeeps(items, runs);
    var r := RefreshAll(items, runs);
    forall k | 0 <= k < |items|
      ensures r[k].status == Pending <==> items[k].status == Pending
    {
      assert k in PendingSet(r) <==> k in PendingSet(items);
    }
  }

  /**
   Main result: which runs a tick requests. Requests go to pending items in order, a sequential flow makes one at a
   time and none beside an open item, and a parallel flow makes all unless one fails that it must stop for.
   */
  lemma TickRequests(flow: Flow, runs: Runs, answers: Answers)
    requires flow.status == FlowRunning
    ensures var (after, enqueued) := Tick(flow, runs, answers);
            && RequestsInOrder(flow.items, enqueued)
            && (flow.mode == Sequential ==> |enqueued| <= 1)
            && (flow.mode == Sequential && enqueued != [] ==>
                  forall k | 0 <= k < |flow.items| && Open(flow.items[k], runs) :: flow.items[k].status == Pending)
            && (flow.mode == Parallel && after.status == FlowRunning ==>
                  || (forall k | 0 <= k < |flow.items| && flow.items[k].status == Pending :: k in enqueued)
                  || (!flow.continueOnFailure && exists k | k in enqueued :: answers(k).EnqueueFails?))
  {
    var items, enqueued := RefreshAll(flow.items, runs), Tick(flow, runs, answers).1;
    if ReachesQueueing(flow, runs) {
      QueueingRequests(flow, items, answers);
      RefreshKeepsOrder(flow.items, runs, enqueued);
      forall k | 0 <= k < |flow.items|
        ensures Open(flow.items[k], runs) ==> items[k].status == Pending || IsActiveItem(items[k])
        ensures items[k].status == Pending <==> flow.items[k].status == Pending
      {
        RefreshFollowsRun(flow.items[k], runs);
      }
    }
  }

  /** Main result: what a tick makes of every item: answered, skipped when the flow stops, or as its run says. */
  lemma TickItems(flow: Flow, runs: Runs, answers: Answers, k: nat)
    requires flow.status == FlowRunning && k < |flow.items|
    ensures var (after, enqueued) := Tick(flow, runs, answers);
            && |after.items| == |flow.items|
            && if k in enqueued then IsAnswered(after.items[k], answers(k))
               else if after.status == FlowFailed && flow.items[k].status == Pending
               then after.items[k] == flow.items[k].(status := ItemSkipped)
               else FollowsRun(flow.items[k], after.items[k], runs)
  {
    RefreshFollowsRun(flow.items[k], runs);
    ProceedItems(flow, RefreshAll(flow.items, runs), answers, k);
    RefreshAt(flow.items, runs, k);
  }

  lemma RefreshAt(items: seq<Item>, runs: Runs, k: nat)
    requires k < |items|
    ensures |RefreshAll(items, runs)| == |items| && RefreshAll(items, runs)[k] == Refresh(items[k], runs)
  {
  }

  lemma ProceedItems(flow: Flow, items: seq<Item>, answers: Answers, k: nat)
    requires flow.status == FlowRunning && k < |items|
    ensures var (after, enqueued) := Proceed(flow, items, answers);
            && |after.items| == |items|
            && if k in enqueued then IsAnswered(after.items[k], answers(k))
               else if after.status == FlowFailed && items[k].status == Pending
               then after.items[k] == items[k].(status := ItemSkipped)
               else after.items[k] == items[k]
  {
    if HasFailed(items) && !flow.continueOnFailure {
    } else if PendingSet(items) == {} && !HasActive(items) {
      assert k !in PendingSet(items);
    } else if !(HasActive(items) && flow.mode == Sequential) {
      QueuedItem(items, ItemsToQueue(flow, items), answers, !flow.continueOnFailure, k);
    }
  }

  lemma QueuedItem(items: seq<Item>, todo: seq<int>, answers: Answers, stops: bool, k: nat)
    requires forall l | 0 <= l < |todo| :: 0 <= todo[l] < |items|
    requires forall l, m | 0 <= l < m < |todo| :: todo[l] < todo[m]
    requires k < |items|
    ensures var (queued, enqueued) := QueueItems(items, todo, answers, stops);
            |queued| == |items| && if k in enqueued then IsAnswered(queued[k], answers(k)) else queued[k] == items[k]
  {
    QueueItemsKeeps(items, todo, answers, stops);
  }

  lemma SkipInOrder(items: seq<Item>)
    requires InOrder(items) && !HasActive(items)
    ensures InOrder(SkipPending(items)) && !HasActive(SkipPending(items))
  {
  }

  lemma {:induction false} FirstOfPending(items: seq<Item>, from: nat)
    ensures var pending := PendingFrom(items, from);
            if pending == [] then forall k | from <= k < |items| :: items[k].status != Pending
            else forall k | from <= k < pending[0] :: items[k].status != Pending
    decreases |items| - from
  {
    if from < |items| && items[from].status != Pending {
      FirstOfPending(items, from + 1);
    }
  }

  /** A sequential flow queues its first pending item and no other. */
  lemma FirstPendingOnly(flow: Flow, items: seq<Item>) returns (first: int)
    requires flow.mode == Sequential && PendingSet(items) != {}
    ensures ItemsToQueue(flow, items) == [first]
    ensures 0 <= first < |items| && items[first].status == Pending
    ensures forall k | 0 <= k < first :: items[k].status != Pending
  {
    FirstOfPending(items, 0);
    var k :| k in PendingSet(items);
    first := PendingFrom(items, 0)[0];
  }

  lemma SequentialQueue(flow: Flow, items: seq<Item>, answers: Answers)
    requires flow.mode == Sequential && InOrder(items) && !HasActive(items) && PendingSet(items) != {}
    requires !flow.continueOnFailure ==> !HasFailed(items)
    ensures var queued := QueueItems(items, ItemsToQueue(flow, items), answers, !flow.continueOnFailure).0;
            InOrder(queued) && (!flow.continueOnFailure && HasFailed(queued) ==> !HasActive(queued))
  {
    var first := FirstPendingOnly(flow, items);
    QueueItemsKeeps(items, [first], answers, !flow.continueOnFailure);
    var (queued, enqueued) := QueueItems(items, [first], answers, !flow.continueOnFailure);
    assert enqueued == [first];
    QueueFirstInOrder(items, queued, first, answers);
  }

  lemma RefreshInOrder(items: seq<Item>, runs: Runs)
    requires InOrder(items)
    ensures InOrder(RefreshAll(items, runs))
  {
  }

  /** Queueing the first pending item while none is active. */
  lemma QueueFirstInOrder(items: seq<Item>, queued: seq<Item>, first: int, answers: Answers)
    requires InOrder(items) && !HasActive(items) && |queued| == |items|
    requires 0 <= first < |items| && items[first].status == Pending && queued[first] == Answered(items[first], answers(first))
    requires forall k | 0 <= k < |items| && k != first :: queued[k] == items[k]
    requires forall k | 0 <= k < first :: items[k].status != Pending
    ensures InOrder(queued)
    ensures HasFailed(queued) && !HasFailed(items) ==> !HasActive(queued)
  {
    assert forall k | 0 <= k < |items| && k != first :: !IsActiveItem(queued[k]);
  }

  /** A run of a flow: ticks with any answers, as long as the flow runs. */
  function RunTicks(flow: Flow, inputs: seq<(Runs, Answers)>): Flow
    decreases |inputs|
  {
    if inputs == [] || flow.status != FlowRunning then flow
    else RunTicks(Tick(flow, inputs[0].0, inputs[0].1).0, inputs[1..])
  }

  /** Main result: in every run of a sequential flow the items are worked off in order, one at a time. */
  lemma {:induction false} SequentialOrder(flow: Flow, inputs: seq<(Runs, Answers)>)
    requires flow.mode == Sequential && SequentialInv(flow)
    ensures InOrder(RunTicks(flow, inputs).items)
    decreases |inputs|
  {
    if inputs != [] && flow.status == FlowRunning {
      SequentialTick(flow, inputs[0].0, inputs[0].1);
      SequentialOrder(Tick(flow, inputs[0].0, inputs[0].1).0, inputs[1..]);
    }
  }

  lemma FreshFlowInOrder(flow: Flow)
    requires forall k | 0 <= k < |flow.items| :: flow.items[k].status == Pending
    ensures SequentialInv(flow)
  {
  }

  /** A sequential flow that has just been started is worked off in order in every run. */
  lemma StartedFlowInOrder(flow: Flow, inputs: seq<(Runs, Answers)>)
    requires flow.mode == Sequential && forall k | 0 <= k < |flow.items| :: flow.items[k] == Item(Pending, None)
    ensures InOrder(RunTicks(flow, inputs).items)
  {
    FreshFlowInOrder(flow);
    SequentialOrder(flow, inputs);
  }

  /** Main result, both modes: without continueOnFailure no run is requested once an item has failed. */
  lemma NothingQueuedAfterFailure(flow: Flow, runs: Runs, answers: Answers)
    requires !flow.continueOnFailure
    ensures var enqueued := Tick(flow, runs, answers).1;
            && (HasFailed(flow.items) ==> enqueued == [])
            && (HasFailed(RefreshAll(flow.items, runs)) ==> enqueued == [])
            && OnlyLastFails(enqueued, answers)
  {
    RefreshKeeps(flow.items, runs);
    var items := RefreshAll(flow.items, runs);
    OnlyLastMayFail(items, ItemsToQueue(flow, items), answers);
    if HasFailed(flow.items) {
      var k :| 0 <= k < |flow.items| && flow.items[k].status == ItemFailed;
      assert items[k].status == ItemFailed;
    }
  }

  // ---- completion and progress ----------------------------------------------------------

  /** A flow that ends is failed exactly when some item failed. */
  lemma EndsFailedIffItemFailed(flow: Flow, runs: Runs, answers: Answers)
    requires flow.status == FlowRunning
    ensures var after := Tick(flow, runs, answers).0;
            after.status != FlowRunning ==>
              && (after.status == FlowFailed <==> HasFailed(after.items))
              && (after.status == FlowCompleted <==> !HasFailed(after.items))
  {
    var items := RefreshAll(flow.items, runs);
    if HasFailed(items) {
      var k :| 0 <= k < |items| && items[k].status == ItemFailed;
      assert SkipPending(items)[k].status == ItemFailed;
    }
  }

  /**
   Main result: when a tick ends the flow, and what it leaves. It ends on a failure it must stop for or when nothing is
   pending or active; then nothing is pending, and an item stays active exactly in a parallel flow that stops on
   failure with both a failed and an active item.
   */
  lemma EndsIff(flow: Flow, runs: Runs, answers: Answers)
    requires flow.status == FlowRunning && (flow.mode == Sequential ==> SequentialInv(flow))
    ensures var items, after := RefreshAll(flow.items, runs), Tick(flow, runs, answers).0;
            && (after.status != FlowRunning <==>
                  (HasFailed(items) && !flow.continueOnFailure) || (PendingSet(items) == {} && !HasActive(items)))
            && (after.status != FlowRunning ==>
                  && PendingSet(after.items) == {}
                  && (HasActive(after.items) <==>
                        flow.mode == Parallel && !flow.continueOnFailure && HasFailed(items) && HasActive(items)))
  {
    RefreshKeeps(flow.items, runs);
    var items := RefreshAll(flow.items, runs);
    if HasFailed(items) && !flow.continueOnFailure {
      if flow.mode == Sequential { NoActiveBesideFailed(flow, runs); }
      SkipKeepsActive(items);
    }
  }

  lemma SkipKeepsActive(items: seq<Item>)
    ensures PendingSet(SkipPending(items)) == {}
    ensures HasActive(SkipPending(items)) <==> HasActive(items)
  {
    if HasActive(items) {
      var k :| 0 <= k < |items| && IsActiveItem(items[k]);
      assert IsActiveItem(SkipPending(items)[k]);
    }
    if HasActive(SkipPending(items)) {
      var k :| 0 <= k < |items| && IsActiveItem(SkipPending(items)[k]);
      assert IsActiveItem(items[k]);
    }
  }

  /** Except for a parallel flow that stops on failure, a flow ends only when all items are final. */
  lemma EndsWhenAllFinal(flow: Flow, runs: Runs, answers: Answers)
    requires flow.status == FlowRunning && (flow.mode == Sequential ==> SequentialInv(flow))
    requires flow.mode == Sequential || flow.continueOnFailure
    ensures var after := Tick(flow, runs, answers).0;
            after.status != FlowRunning ==>
              forall k | 0 <= k < |after.items| :: after.items[k].status in {ItemCompleted, ItemFailed, ItemSkipped, ItemCanceled}
  {
    EndsIff(flow, runs, answers);
    var after := Tick(flow, runs, answers).0;
    assert forall k | 0 <= k < |after.items| && after.items[k].status == Pending :: k in PendingSet(after.items);
  }

  lemma NoActiveBesideFailed(flow: Flow, runs: Runs)
    requires flow.mode == Sequential && SequentialInv(flow) && !flow.continueOnFailure
    ensures HasFailed(RefreshAll(flow.items, runs)) ==> !HasActive(RefreshAll(flow.items, runs))
  {
  }

  /** A parallel flow that stops on failure may leave a run behind. */
  lemma ParallelStopLeavesActive()
    ensures exists flow: Flow, runs: Runs, answers: Answers ::
              && flow.status == FlowRunning && Tick(flow, runs, answers).0.status == FlowFailed
              && HasActive(Tick(flow, runs, answers).0.items)
  {
    var items := [Item(ItemQueued, Some(0)), Item(ItemQueued, Some(1))];
    var flow := Flow(Parallel, false, FlowRunning, items);
    var runs: Runs := id => if id == 0 then Some(RunFailed) else Some(RunRunning);
    var answers: Answers := k => EnqueueFails;
    var refreshed := RefreshAll(items, runs);
    assert refreshed[0].status == ItemFailed && refreshed[1].status == ItemRunning;
    assert HasFailed(refreshed);
    assert SkipPending(refreshed)[1].status == ItemRunning;
    assert Tick(flow, runs, answers).0.items == SkipPending(refreshed);
  }

  /** The tick gets to the queueing loop. */
  predicate ReachesQueueing(flow: Flow, runs: Runs) {
    var items := RefreshAll(flow.items, runs);
    && !(HasFailed(items) && !flow.continueOnFailure)
    && !(PendingSet(items) == {} && !HasActive(items))
    && !(HasActive(items) && flow.mode == Sequential)
  }

  /**
   Main result: in every tick the pending items never grow, with the same pending items the active ones never
   grow, and a tick that reaches the queueing loop with pending items leaves fewer of them.
   */
  lemma TicksMakeProgress(flow: Flow, runs: Runs, answers: Answers)
    ensures var after := Tick(flow, runs, answers).0;
            && PendingSet(after.items) <= PendingSet(flow.items)
            && (PendingSet(after.items) == PendingSet(flow.items) ==> ActiveSet(after.items) <= ActiveSet(flow.items))
            && (ReachesQueueing(flow, runs) && PendingSet(flow.items) != {} ==> PendingSet(after.items) < PendingSet(flow.items))
  {
    RefreshKeeps(flow.items, runs);
    var items := RefreshAll(flow.items, runs);
    if ReachesQueueing(flow, runs) {
      var todo := ItemsToQueue(flow, items);
      QueueItemsKeeps(items, todo, answers, !flow.continueOnFailure);
      var (queued, enqueued) := QueueItems(items, todo, answers, !flow.continueOnFailure);
      PendingShrinks(items, queued, enqueued, answers);
      assert todo != [] ==> todo[0] in enqueued && todo[0] in PendingSet(items);
      if todo == [] { assert queued == items; }
    }
  }

  lemma PendingShrinks(items: seq<Item>, queued: seq<Item>, enqueued: seq<int>, answers: Answers)
    requires |queued| == |items|
    requires forall k | 0 <= k < |items| && k !in enqueued :: queued[k] == items[k]
    requires forall k | 0 <= k < |items| && k in enqueued :: queued[k] == Answered(items[k], answers(k))
    ensures PendingSet(queued) <= PendingSet(items)
    ensures forall k | k in enqueued :: k !in PendingSet(queued)
  {
  }
}
