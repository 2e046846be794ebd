/** Searching upward for the first integers that satisfy a predicate. */
module Search {
  import opened Wrappers

  predicate Increasing(s: seq<int>) {
    forall k, l | 0 <= k < l < |s| :: s[k] < s[l]
  }

  /** `hits` are exactly the first `count` integers of [low, high] that satisfy p. */
  ghost predicate AreFirstHits(p: int -> bool, hits: seq<int>, low: int, high: int, count: int) {
    && Increasing(hits)
    && (forall k | 0 <= k < |hits| :: low <= hits[k] <= high && p(hits[k]))
    && (if count >= 0 then |hits| <= count else hits == [])
    && (forall m | low <= m <= high && p(m) :: m in hits || (|hits| >= count && forall k | 0 <= k < |hits| :: hits[k] < m))
  }

  /** The same integers, computed from the top of the window down. */
  function FirstHits(p: int -> bool, low: int, high: int, count: int): seq<int>
    decreases high - low
  {
    if high < low then []
    else
      var earlier := FirstHits(p, low, high - 1, count);
      if |earlier| < count && p(high) then earlier + [high] else earlier
  }

  lemma GrowFirstHits(p: int -> bool, hits: seq<int>, low: int, high: int, count: int)
    requires AreFirstHits(p, hits, low, high - 1, count) && |hits| < count && low <= high
    ensures AreFirstHits(p, if p(high) then hits + [high] else hits, low, high, count)
  {
    var next := if p(high) then hits + [high] else hits;
    forall m | low <= m <= high && p(m)
      ensures m in next
    {
      if m == high { assert next[|hits|] == m; }
    }
  }

  lemma {:induction false} FirstHitsFit(p: int -> bool, low: int, high: int, count: int)
    ensures AreFirstHits(p, FirstHits(p, low, high, count), low, high, count)
    decreases high - low
  {
    if low <= high {
      FirstHitsFit(p, low, high - 1, count);
      if |FirstHits(p, low, high - 1, count)| < count {
        GrowFirstHits(p, FirstHits(p, low, high - 1, count), low, high, count);
      }
    }
  }

  /** Without its last element, if that is the end of the window, the description fits the shorter window. */
  lemma ShortenHits(p: int -> bool, hits: seq<int>, low: int, high: int, count: int)
    requires AreFirstHits(p, hits, low, high, count) && low <= high
    requires hits != [] && hits[|hits| - 1] == high
    ensures AreFirstHits(p, hits[..|hits| - 1], low, high - 1, count)
  {
    var earlier := hits[..|hits| - 1];
    forall m | low <= m <= high - 1 && p(m)
      ensures m in earlier
    {
      var k :| 0 <= k < |hits| && hits[k] == m;
      assert earlier[k] == m;
    }
  }

  lemma KeepHits(p: int -> bool, hits: seq<int>, low: int, high: int, count: int)
    requires AreFirstHits(p, hits, low, high, count) && low <= high
    requires hits == [] || hits[|hits| - 1] != high
    ensures AreFirstHits(p, hits, low, high - 1, count)
    ensures |hits| < count ==> !p(high)
  {
  }

  lemma {:induction false} FirstHitsUnique(p: int -> bool, hits: seq<int>, low: int, high: int, count: int)
    requires AreFirstHits(p, hits, low, high, count)
    ensures hits == FirstHits(p, low, high, count)
    decreases high - low
  {
    if low <= high {
      if hits != [] && hits[|hits| - 1] == high {
        ShortenHits(p, hits, low, high, count);
        FirstHitsUnique(p, hits[..|hits| - 1], low, high - 1, count);
        assert hits == hits[..|hits| - 1] + [high];
      } else {
        KeepHits(p, hits, low, high, count);
        FirstHitsUnique(p, hits, low, high - 1, count);
      }
    }
  }

  /** FirstHits is the one sequence that fits the description. */
  lemma FirstHitsExact(p: int -> bool, hits: seq<int>, low: int, high: int, count: int)
    ensures AreFirstHits(p, hits, low, high, count) <==> hits == FirstHits(p, low, high, count)
  {
    FirstHitsFit(p, low, high, count);
    if AreFirstHits(p, hits, low, high, count) {
      FirstHitsUnique(p, hits, low, high, count);
    }
  }

  ghost predicate IsLeast(p: int -> bool, m: int, low: int, high: int) {
    low <= m <= high && p(m) && forall x | low <= x < m :: !p(x)
  }

  /** The first hit of two sets taken together is the earlier one of their first hits. */
  lemma FirstOfUnion(p: int -> bool, q: int -> bool, r: int -> bool, low: int, high: int)
    requires forall t :: p(t) <==> q(t) || r(t)
    ensures First(p, low, high) == Earlier(First(q, low, high), First(r, low, high))
  {
    FirstIsLeast(p, low, high);
    FirstIsLeast(q, low, high);
    FirstIsLeast(r, low, high);
  }

  function Earlier(a: Option<int>, b: Option<int>): Option<int> {
    if a.None? then b else if b.None? then a else if a.value <= b.value then a else b
  }

  function First(p: int -> bool, low: int, high: int): Option<int> {
    var hits := FirstHits(p, low, high, 1);
    if hits == [] then None else Some(hits[0])
  }

  method FirstOf(hits: seq<int>, ghost p: int -> bool, ghost low: int, ghost high: int) returns (first: Option<int>)
    requires hits == FirstHits(p, low, high, 1)
    ensures first == First(p, low, high)
  {
    first := if hits == [] then None else Some(hits[0]);
  }

  lemma {:induction false} FirstIsLeast(p: int -> bool, low: int, high: int)
    ensures |FirstHits(p, low, high, 1)| <= 1
    ensures First(p, low, high).Some? ==> IsLeast(p, First(p, low, high).value, low, high)
    ensures First(p, low, high).None? <==> forall x | low <= x <= high :: !p(x)
    decreases high - low
  {
    if low <= high {
      FirstIsLeast(p, low, high - 1);
    }
  }
}
