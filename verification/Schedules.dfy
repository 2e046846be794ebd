/** The catch-up walk of enqueueDueSchedules over one schedule. */
module CatchUp {
  import opened Wrappers
  import opened CronFields
  import opened Search
  import opened NextRuns

  const MAX_CATCHUP_RUNS := 24
  const MINUTE_MS := 60_000

  /** The slot the code computes after `slot`: it asks for a run one minute after it, which starts another minute later. */
  function Successor(cron: string, slot: int): (next: Option<int>)
  {
    match ParseExpression(cron)
    case None => None
    case Some(e) =>
      match NextRun(e, FloorMinute(slot + MINUTE_MS))
      case None => None
      case Some(m) => Some(m * MINUTE_MS)
  }

  lemma SuccessorIsLater(cron: string, slot: int)
    ensures Successor(cron, slot).Some? ==> Successor(cron, slot).value > slot + MINUTE_MS
  {
    var parsed := ParseExpression(cron);
    if parsed.Some? && NextRun(parsed.value, FloorMinute(slot + MINUTE_MS)).Some? {
      RunIsMatch(parsed.value, FloorMinute(slot + MINUTE_MS));
    }
  }

  /** `time` is the first whole minute with a match that lies more than a minute after the slot. */
  ghost predicate IsNextTime(p: int -> bool, slot: int, time: int) {
    && time % 60_000 == 0 && time > slot + 60_000 && p(time / 60_000)
    && forall m | slot + 60_000 < m * 60_000 < time :: !p(m)
  }

  lemma FirstIsNextTime(p: int -> bool, slot: int, run: int)
    requires var from := FloorMinute(slot + 60_000); First(p, from + 1, from + MAX_ITERATIONS) == Some(run)
    ensures IsNextTime(p, slot, run * 60_000)
  {
    var from := FloorMinute(slot + 60_000);
    FirstIsLeast(p, from + 1, from + MAX_ITERATIONS);
    assert run * 60_000 / 60_000 == run;
  }

  lemma SuccessorIsFirst(cron: string, e: Expression, slot: int)
    requires ParseExpression(cron) == Some(e)
    ensures var from := FloorMinute(slot + 60_000);
            Successor(cron, slot) == Scale(First(MatchSet(e), from + 1, from + MAX_ITERATIONS))
  {
  }

  lemma ScaledFirstIsNextTime(p: int -> bool, slot: int, next: Option<int>)
    requires var from := FloorMinute(slot + 60_000); next == Scale(First(p, from + 1, from + MAX_ITERATIONS))
    ensures next.Some? ==> IsNextTime(p, slot, next.value)
  {
    if next.Some? { FirstIsNextTime(p, slot, next.value / 60_000); }
  }

  lemma SuccessorIsNextTime(cron: string, e: Expression, slot: int)
    requires ParseExpression(cron) == Some(e) && Successor(cron, slot).Some?
    ensures IsNextTime(MatchSet(e), slot, Successor(cron, slot).value)
  {
    SuccessorIsFirst(cron, e, slot);
    ScaledFirstIsNextTime(MatchSet(e), slot, Successor(cron, slot));
  }

  function SuccessorOf(cron: string): int -> Option<int> {
    slot => Successor(cron, slot)
  }

  /** Slots attempted from `cursor` on, and the cursor the walk ends with. */
  function Walk(succ: int -> Option<int>, cursor: Option<int>, now: int, left: nat): (seq<int>, Option<int>)
    decreases left
  {
    if cursor.None? || cursor.value > now || left == 0 then ([], cursor)
    else
      var (later, end) := Walk(succ, succ(cursor.value), now, left - 1);
      ([cursor.value] + later, end)
  }

  lemma WalkOneSlot(succ: int -> Option<int>, slot: int, now: int, left: nat, before: seq<int>)
    requires slot <= now && left > 0
    ensures var rest := Walk(succ, succ(slot), now, left - 1);
            && before + Walk(succ, Some(slot), now, left).0 == before + [slot] + rest.0
            && Walk(succ, Some(slot), now, left).1 == rest.1
  {
    Regroup(before, slot, Walk(succ, succ(slot), now, left - 1).0);
  }

  lemma Regroup(before: seq<int>, slot: int, later: seq<int>)
    ensures before + ([slot] + later) == before + [slot] + later
  {
  }

  /** What became of the attempt to enqueue one slot; the walk goes on in every case. */
  datatype Attempt = Enqueued | SkippedByLock | Duplicate | Raised

  class Schedule {
    const cron: string
    var nextRunTime: Option<int>
    var lastScheduledFor: Option<int>

    constructor (expression: string, next: Option<int>)
      ensures cron == expression && nextRunTime == next && lastScheduledFor == None
    {
      cron, nextRunTime, lastScheduledFor := expression, next, None;
    }

    /** enqueueRunRequest for one slot; callers know nothing about the answer. */
    method Enqueue(slot: int) returns (result: Attempt) {
      result := Enqueued;
    }

    method NextCursor(slot: int) returns (next: Option<int>)
      ensures next == SuccessorOf(cron)(slot)
    {
      var minute := GetNextRunTimeFromExpression(cron, slot + MINUTE_MS);
      next := if minute.None? then None else Some(minute.value * MINUTE_MS);
    }

    /** The loop over one due schedule, and the save after it. */
    method CatchUp(now: int) returns (attempted: seq<int>)
      modifies this
      ensures attempted == Walk(SuccessorOf(cron), old(nextRunTime), now, MAX_CATCHUP_RUNS).0
      ensures nextRunTime == Walk(SuccessorOf(cron), old(nextRunTime), now, MAX_CATCHUP_RUNS).1
      ensures lastScheduledFor == old(lastScheduledFor) || (lastScheduledFor.Some? && lastScheduledFor.value in attempted)
    {
      attempted := [];
      var cursor := nextRunTime;
      var catchupCount := 0;
      ghost var whole := Walk(SuccessorOf(cron), cursor, now, MAX_CATCHUP_RUNS);
      assert [] + whole.0 == whole.0;
      while cursor.Some? && cursor.value <= now && catchupCount < MAX_CATCHUP_RUNS
        invariant 0 <= catchupCount <= MAX_CATCHUP_RUNS && nextRunTime == old(nextRunTime)
        invariant whole.0 == attempted + Walk(SuccessorOf(cron), cursor, now, MAX_CATCHUP_RUNS - catchupCount).0
        invariant whole.1 == Walk(SuccessorOf(cron), cursor, now, MAX_CATCHUP_RUNS - catchupCount).1
        invariant lastScheduledFor == old(lastScheduledFor)
                  || (lastScheduledFor.Some? && lastScheduledFor.value in attempted)
        decreases MAX_CATCHUP_RUNS - catchupCount
      {
        var result := Enqueue(cursor.value);
        WalkOneSlot(SuccessorOf(cron), cursor.value, now, MAX_CATCHUP_RUNS - catchupCount, attempted);
        attempted := attempted + [cursor.value];
        if result.Enqueued? || result.SkippedByLock? {
          assert attempted[|attempted| - 1] == cursor.value;
          lastScheduledFor := cursor;
        }
        cursor := NextCursor(cursor.value);
        catchupCount := catchupCount + 1;
      }
      nextRunTime := cursor;
    }
  }

  // ---- what the walk means, in minutes, for any set of matching minutes ------------------

  function NextSlot(p: int -> bool, minute: int): Option<int> {
    First(p, minute + 2, minute + 1 + MAX_ITERATIONS)
  }

  function WalkMinutes(p: int -> bool, cursor: Option<int>, now: int, left: nat): (seq<int>, Option<int>)
    decreases left
  {
    if cursor.None? || cursor.value > now || left == 0 then ([], cursor)
    else
      var (later, end) := WalkMinutes(p, NextSlot(p, cursor.value), now, left - 1);
      ([cursor.value] + later, end)
  }

  function InMilliseconds(minutes: seq<int>): (ms: seq<int>)
    ensures |ms| == |minutes| && forall k | 0 <= k < |ms| :: ms[k] == minutes[k] * MINUTE_MS
  {
    seq(|minutes|, k requires 0 <= k < |minutes| => minutes[k] * MINUTE_MS)
  }

  function Scale(minute: Option<int>): Option<int> {
    if minute.None? then None else Some(minute.value * MINUTE_MS)
  }

  predicate ScalesAt(succ: int -> Option<int>, p: int -> bool, minute: int) {
    succ(minute * MINUTE_MS) == Scale(NextSlot(p, minute))
  }

  lemma SuccessorInMinutes(cron: string, e: Expression, minute: int)
    requires ParseExpression(cron) == Some(e)
    ensures ScalesAt(SuccessorOf(cron), MatchSet(e), minute)
  {
    assert FloorMinute(minute * MINUTE_MS + MINUTE_MS) == minute + 1;
  }

  lemma {:induction false} WalkScales(succ: int -> Option<int>, p: int -> bool, minute: int, now: int, left: nat)
    requires forall m :: ScalesAt(succ, p, m)
    ensures var (slots, end) := Walk(succ, Some(minute * MINUTE_MS), now, left);
            var (minutes, last) := WalkMinutes(p, Some(minute), FloorMinute(now), left);
            slots == InMilliseconds(minutes) && end == Scale(last)
    decreases left
  {
    assert minute * MINUTE_MS <= now <==> minute <= FloorMinute(now);
    if minute * MINUTE_MS <= now && left > 0 {
      assert ScalesAt(succ, p, minute);
      var next := NextSlot(p, minute);
      if next.Some? {
        WalkScales(succ, p, next.value, now, left - 1);
      }
    }
  }

  /** From a slot on a whole minute, the walk over times is the walk over minutes. */
  lemma WalkInMinutes(cron: string, e: Expression, minute: int, now: int, left: nat)
    requires ParseExpression(cron) == Some(e)
    ensures var (slots, end) := Walk(SuccessorOf(cron), Some(minute * MINUTE_MS), now, left);
            var (minutes, last) := WalkMinutes(MatchSet(e), Some(minute), FloorMinute(now), left);
            slots == InMilliseconds(minutes) && end == Scale(last)
  {
    forall m
      ensures ScalesAt(SuccessorOf(cron), MatchSet(e), m)
    {
      SuccessorInMinutes(cron, e, m);
    }
    WalkScales(SuccessorOf(cron), MatchSet(e), minute, now, left);
  }

  predicate NoTwoInARow(p: int -> bool, minute: int) {
    !(p(minute) && p(minute + 1))
  }

  /** Never two matching minutes in a row. */
  ghost predicate Sparse(p: int -> bool) {
    forall minute :: NoTwoInARow(p, minute)
  }

  /** The code's successor is the next match exactly if the minute right after does not match. */
  lemma SuccessorIsNextMatchIff(p: int -> bool, minute: int)
    ensures NextSlot(p, minute) == First(p, minute + 1, minute + 1 + MAX_ITERATIONS) <==> !p(minute + 1)
  {
    FirstIsLeast(p, minute + 2, minute + 1 + MAX_ITERATIONS);
    FirstIsLeast(p, minute + 1, minute + 1 + MAX_ITERATIONS);
  }

  /** How far a walk has looked: a walk without a successor stops at the end of its last search window. */
  function LookedUpTo(attempted: seq<int>, end: Option<int>, now: int): int {
    if end.None? && attempted != [] && attempted[|attempted| - 1] + 1 + MAX_ITERATIONS < now then
      attempted[|attempted| - 1] + 1 + MAX_ITERATIONS
    else now
  }

  /**
   The promise of the walk: it attempts the first `left` matching minutes due, in order, and stores the least
   later match, or nothing if its search window has none.
   */
  ghost predicate WalkKeepsPromise(p: int -> bool, minute: int, now: int, left: nat) {
    var (attempted, end) := WalkMinutes(p, Some(minute), now, left);
    && AreFirstHits(p, attempted, minute, LookedUpTo(attempted, end, now), left)
    && (attempted != [] ==> StoresNextMatch(p, attempted[|attempted| - 1], end))
  }

  ghost predicate StoresNextMatch(p: int -> bool, last: int, end: Option<int>) {
    match end
    case Some(next) => IsLeast(p, next, last + 1, last + 1 + MAX_ITERATIONS)
    case None => forall m | last < m <= last + 1 + MAX_ITERATIONS :: !p(m)
  }

  /** Putting one more hit in front of a run of first hits. */
  lemma PrependHit(p: int -> bool, first: int, low: int, high: int, hits: seq<int>, count: nat)
    requires p(first) && first < low && (forall m | first < m < low :: !p(m)) && first <= high
    requires AreFirstHits(p, hits, low, high, count)
    ensures AreFirstHits(p, [first] + hits, first, high, count + 1)
  {
    var all := [first] + hits;
    forall m | first <= m <= high && p(m)
      ensures m in all || (|all| >= count + 1 && forall k | 0 <= k < |all| :: all[k] < m)
    {
      if m == first { assert all[0] == m; }
      else if m in hits { var k :| 0 <= k < |hits| && hits[k] == m; assert all[k + 1] == m; }
    }
  }

  lemma OnlyHit(p: int -> bool, minute: int, high: int, count: int)
    requires p(minute) && minute <= high && count > 0 && forall m | minute < m <= high :: !p(m)
    ensures AreFirstHits(p, [minute], minute, high, count)
  {
  }

  lemma WalkEnds(p: int -> bool, cursor: Option<int>, now: int, left: nat)
    requires cursor.None? || cursor.value > now || left == 0
    ensures WalkMinutes(p, cursor, now, left) == ([], cursor)
  {
  }

  lemma WalkGoesOn(p: int -> bool, minute: int, now: int, left: nat)
    requires minute <= now && left > 0
    ensures var rest := WalkMinutes(p, NextSlot(p, minute), now, left - 1);
            WalkMinutes(p, Some(minute), now, left) == ([minute] + rest.0, rest.1)
  {
  }

  /** The minutes after a matching slot without a successor, up to the end of the window. */
  lemma NoneAfterLastSlot(p: int -> bool, minute: int)
    requires Sparse(p) && p(minute) && NextSlot(p, minute).None?
    ensures forall m | minute < m <= minute + 1 + MAX_ITERATIONS :: !p(m)
  {
    assert NoTwoInARow(p, minute);
    FirstIsLeast(p, minute + 2, minute + 1 + MAX_ITERATIONS);
  }

  /** After the last slot of a run whose successor lies beyond the window, nothing more can be due. */
  lemma LastSlot(p: int -> bool, minute: int, now: int, left: nat)
    requires Sparse(p) && p(minute) && minute <= now && left > 0 && NextSlot(p, minute).None?
    ensures WalkKeepsPromise(p, minute, now, left)
  {
    NoneAfterLastSlot(p, minute);
    WalkEnds(p, None, now, left - 1);
    WalkGoesOn(p, minute, now, left);
    assert [minute] + [] == [minute];
    var high := LookedUpTo([minute], None, now);
    OnlyHit(p, minute, high, left);
  }

  lemma {:induction false} SparseWalk(p: int -> bool, minute: int, now: int, left: nat)
    requires Sparse(p) && p(minute)
    ensures WalkKeepsPromise(p, minute, now, left)
    decreases left
  {
    if minute > now || left == 0 {
      WalkEnds(p, Some(minute), now, left);
    } else if NextSlot(p, minute).None? {
      LastSlot(p, minute, now, left);
    } else {
      var next := NextSlot(p, minute).value;
      NextSlotIsNextMatch(p, minute);
      SparseWalk(p, next, now, left - 1);
      PrependSlot(p, minute, next, now, left);
    }
  }

  lemma NextSlotIsNextMatch(p: int -> bool, minute: int)
    requires Sparse(p) && p(minute) && NextSlot(p, minute).Some?
    ensures IsLeast(p, NextSlot(p, minute).value, minute + 1, minute + 1 + MAX_ITERATIONS)
  {
    assert NoTwoInARow(p, minute);
    FirstIsLeast(p, minute + 2, minute + 1 + MAX_ITERATIONS);
  }

  lemma PrependSlot(p: int -> bool, minute: int, next: int, now: int, left: nat)
    requires p(minute) && minute <= now && left > 0 && NextSlot(p, minute) == Some(next)
    requires IsLeast(p, next, minute + 1, minute + 1 + MAX_ITERATIONS)
    requires WalkKeepsPromise(p, next, now, left - 1)
    ensures WalkKeepsPromise(p, minute, now, left)
  {
    WalkGoesOn(p, minute, now, left);
    var (later, end) := WalkMinutes(p, Some(next), now, left - 1);
    if next > now || left == 1 {
      WalkEnds(p, Some(next), now, left - 1);
    } else {
      WalkGoesOn(p, next, now, left - 1);
    }
    PrependToHits(p, minute, next, now, left, later, end);
  }

  lemma PrependToHits(p: int -> bool, minute: int, next: int, now: int, left: nat, later: seq<int>, end: Option<int>)
    requires p(minute) && minute <= now && left > 0
    requires IsLeast(p, next, minute + 1, minute + 1 + MAX_ITERATIONS)
    requires AreFirstHits(p, later, next, LookedUpTo(later, end, now), left - 1)
    requires if later == [] then end == Some(next) else StoresNextMatch(p, later[|later| - 1], end)
    ensures var all := [minute] + later;
            && AreFirstHits(p, all, minute, LookedUpTo(all, end, now), left)
            && StoresNextMatch(p, all[|all| - 1], end)
  {
    var all := [minute] + later;
    if later != [] {
      assert all[|all| - 1] == later[|later| - 1];
      assert later[|later| - 1] > minute;
    }
    var high := LookedUpTo(all, end, now);
    assert high == LookedUpTo(later, end, now);
    PrependHit(p, minute, next, high, later, left - 1);
  }

  lemma WalkSkipsSecondOfTwo(p: int -> bool, minute: int)
    requires p(minute) && p(minute + 1)
    ensures !WalkKeepsPromise(p, minute, minute + 1, MAX_CATCHUP_RUNS)
  {
    FirstIsLeast(p, minute + 2, minute + 1 + MAX_ITERATIONS);
    var next := NextSlot(p, minute);
    assert WalkMinutes(p, next, minute + 1, MAX_CATCHUP_RUNS - 1) == ([], next);
    assert WalkMinutes(p, Some(minute), minute + 1, MAX_CATCHUP_RUNS) == ([minute] + [], next);
    assert p(minute + 1) && minute + 1 !in [minute];
  }

  /**
   Main result: the walk keeps its promise from every matching slot and at every time exactly for the
   expressions that never match two minutes in a row.
   */
  lemma WalkExactIffSparse(p: int -> bool)
    ensures Sparse(p) <==> forall minute, now | p(minute) :: WalkKeepsPromise(p, minute, now, MAX_CATCHUP_RUNS)
  {
    forall minute, now | Sparse(p) && p(minute)
      ensures WalkKeepsPromise(p, minute, now, MAX_CATCHUP_RUNS)
    {
      SparseWalk(p, minute, now, MAX_CATCHUP_RUNS);
    }
    if !Sparse(p) {
      var minute :| !NoTwoInARow(p, minute);
      WalkSkipsSecondOfTwo(p, minute);
    }
  }

  /** A schedule for every minute is only attempted every second minute. */
  lemma EveryMinuteIsHalved(minute: int)
    ensures NextSlot(MatchSet(Expression("*", "*", "*", "*", "*")), minute) == Some(minute + 2)
  {
    var p := MatchSet(Expression("*", "*", "*", "*", "*"));
    FirstIsLeast(p, minute + 2, minute + 1 + MAX_ITERATIONS);
    assert p(minute + 2);
  }
}
