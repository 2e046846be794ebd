/** computeNextRuns: the next minutes a cron expression matches. */
module NextRuns {
  import opened Wrappers
  import opened Text
  import opened CronFields
  import opened Calendar
  import opened Search

  const MAX_ITERATIONS := 525_600

  datatype Expression = Expression(minute: string, hour: string, dom: string, month: string, dow: string)

  predicate AdmitsMinute(e: Expression, m: int) { Admits(e.minute, m, 0, 59, map[]) }
  predicate AdmitsHour(e: Expression, h: int) { Admits(e.hour, h, 0, 23, map[]) }
  predicate AdmitsDayOfMonth(e: Expression, d: int) { Admits(e.dom, d, 1, 31, map[]) }
  predicate AdmitsMonth(e: Expression, m: int) { Admits(e.month, m, 1, 12, MONTH_ALIASES) }
  predicate AdmitsDayOfWeek(e: Expression, w: int) { Admits(e.dow, w, 0, 7, DAY_ALIASES) }

  /** The rule for days: both fields must agree unless both are restricted, then one is enough. */
  predicate DayMatches(e: Expression, minute: int) {
    if e.dom != "*" && e.dow != "*" then
      AdmitsDayOfMonth(e, DayOfMonth(minute)) || AdmitsDayOfWeek(e, DayOfWeek(minute))
    else
      AdmitsDayOfMonth(e, DayOfMonth(minute)) && AdmitsDayOfWeek(e, DayOfWeek(minute))
  }

  predicate Matches(e: Expression, minute: int) {
    && AdmitsMinute(e, MinuteField(minute)) && AdmitsHour(e, HourField(minute))
    && AdmitsMonth(e, MonthField(minute)) && DayMatches(e, minute)
  }

  /** The expression as a set of minutes. */
  function MatchSet(e: Expression): int -> bool {
    m => Matches(e, m)
  }

  // ---- the two fields for days ----------------------------------------------------------

  /** What each of the two fields for days admits with the other one left open, taken together. */
  function EitherDaySet(e: Expression): int -> bool {
    t => Matches(e.(dow := "*"), t) || Matches(e.(dom := "*"), t)
  }

  /** Two restricted fields for days widen each other, and an open one leaves the other as it is. */
  lemma DayFieldsUnite(e: Expression, t: int)
    ensures e.dom != "*" && e.dow != "*" ==>
              (Matches(e, t) <==> Matches(e.(dow := "*"), t) || Matches(e.(dom := "*"), t))
    ensures e.dom == "*" || e.dow == "*" ==>
              (Matches(e, t) <==> Matches(e.(dow := "*"), t) && Matches(e.(dom := "*"), t))
  {
  }

  lemma HitsUnite(e: Expression, hits: seq<int>, low: int, high: int, count: int)
    requires e.dom != "*" && e.dow != "*"
    requires AreFirstHits(MatchSet(e), hits, low, high, count)
    ensures AreFirstHits(EitherDaySet(e), hits, low, high, count)
  {
    forall t
      ensures MatchSet(e)(t) == EitherDaySet(e)(t)
    {
      DayFieldsUnite(e, t);
    }
  }

  /** The next run with both fields restricted is the earlier one of the next runs with one of them. */
  lemma NextRunIsEarlier(e: Expression, after: int)
    requires e.dom != "*" && e.dow != "*"
    ensures NextRun(e, after) == Earlier(NextRun(e.(dow := "*"), after), NextRun(e.(dom := "*"), after))
  {
    var p, q, r := MatchSet(e), MatchSet(e.(dow := "*")), MatchSet(e.(dom := "*"));
    forall t
      ensures p(t) <==> q(t) || r(t)
    {
      DayFieldsUnite(e, t);
    }
    FirstOfUnion(p, q, r, after + 1, after + MAX_ITERATIONS);
  }

  /** The current time in milliseconds, cut to whole minutes. */
  function FloorMinute(now: int): int { now / 60_000 }

  /** The test that the loop of computeNextRuns makes for one minute. */
  method MinuteMatches(e: Expression, cursor: int) returns (matches: bool)
    ensures matches == MatchSet(e)(cursor)
  {
    var dayOfMonthMatches := MatchesCronField(e.dom, DayOfMonth(cursor), 1, 31, map[]);
    var monthMatches := MatchesCronField(e.month, MonthField(cursor), 1, 12, MONTH_ALIASES);
    var dayOfWeekMatches := MatchesCronField(e.dow, DayOfWeek(cursor), 0, 7, DAY_ALIASES);
    var dayMatches :=
      if e.dom == "*" && e.dow == "*" then true
      else if e.dom == "*" then dayOfWeekMatches
      else if e.dow == "*" then dayOfMonthMatches
      else dayOfMonthMatches || dayOfWeekMatches;
    var minuteMatches := MatchesCronField(e.minute, MinuteField(cursor), 0, 59, map[]);
    var hourMatches := MatchesCronField(e.hour, HourField(cursor), 0, 23, map[]);
    return minuteMatches && hourMatches && monthMatches && dayMatches;
  }

  /** The loop over the minutes of the window. */
  method CollectRuns(e: Expression, count: int, now: int) returns (runs: seq<int>)
    ensures runs == FirstHits(MatchSet(e), FloorMinute(now) + 1, FloorMinute(now) + MAX_ITERATIONS, count)
  {
    runs := [];
    var first := FloorMinute(now) + 1;
    var cursor := first;
    var iterations := 0;
    while |runs| < count && iterations < MAX_ITERATIONS
      invariant 0 <= iterations <= MAX_ITERATIONS && cursor == first + iterations
      invariant AreFirstHits(MatchSet(e), runs, first, cursor - 1, count)
      invariant |runs| <= count || runs == []
      decreases MAX_ITERATIONS - iterations
    {
      iterations := iterations + 1;
      var matches := MinuteMatches(e, cursor);
      GrowFirstHits(MatchSet(e), runs, first, cursor, count);
      if matches {
        runs := runs + [cursor];
      }
      cursor := cursor + 1;
    }
    EnoughHits(MatchSet(e), runs, first, cursor - 1, first + MAX_ITERATIONS - 1, count);
    FirstHitsExact(MatchSet(e), runs, first, first + MAX_ITERATIONS - 1, count);
  }

  /** computeNextRuns; with both fields for days restricted, each of them is enough. */
  method ComputeNextRuns(e: Expression, count: int, now: int) returns (runs: seq<int>)
    ensures runs == FirstHits(MatchSet(e), FloorMinute(now) + 1, FloorMinute(now) + MAX_ITERATIONS, count)
    ensures e.dom != "*" && e.dow != "*" ==>
              AreFirstHits(EitherDaySet(e), runs, FloorMinute(now) + 1, FloorMinute(now) + MAX_ITERATIONS, count)
  {
    runs := CollectRuns(e, count, now);
    UnitedRuns(e, runs, FloorMinute(now) + 1, FloorMinute(now) + MAX_ITERATIONS, count);
  }

  lemma UnitedRuns(e: Expression, runs: seq<int>, low: int, high: int, count: int)
    requires runs == FirstHits(MatchSet(e), low, high, count)
    ensures e.dom != "*" && e.dow != "*" ==> AreFirstHits(EitherDaySet(e), runs, low, high, count)
  {
    FirstHitsExact(MatchSet(e), runs, low, high, count);
    if e.dom != "*" && e.dow != "*" {
      HitsUnite(e, runs, low, high, count);
    }
  }

  /** Once there are enough hits, or the window is used up, the rest of the window does not matter. */
  lemma EnoughHits(p: int -> bool, hits: seq<int>, low: int, high: int, end: int, count: int)
    requires AreFirstHits(p, hits, low, high, count) && high <= end && (|hits| >= count || high == end)
    ensures AreFirstHits(p, hits, low, end, count)
  {
  }

  /** What getNextRunTimeFromExpression returns for a parsed expression: the first match of the window, if any. */
  function NextRun(e: Expression, after: int): Option<int> {
    First(MatchSet(e), after + 1, after + MAX_ITERATIONS)
  }

  /** An expression with exactly five fields; None for any other text. */
  function ParseExpression(text: string): Option<Expression> {
    var parts := SplitSpaces(Trim(text));
    if |parts| == 5 then Some(Expression(parts[0], parts[1], parts[2], parts[3], parts[4])) else None
  }

  method FirstOfNextRuns(e: Expression, now: int) returns (next: Option<int>)
    ensures next == First(MatchSet(e), FloorMinute(now) + 1, FloorMinute(now) + MAX_ITERATIONS)
  {
    var nextRuns := ComputeNextRuns(e, 1, now);
    next := FirstOf(nextRuns, MatchSet(e), FloorMinute(now) + 1, FloorMinute(now) + MAX_ITERATIONS);
  }

  method GetNextRunTimeFromExpression(text: string, now: int) returns (next: Option<int>)
    ensures next == match ParseExpression(text)
                    case None => None
                    case Some(e) => NextRun(e, FloorMinute(now))
  {
    var parsed := ParseExpression(text);
    if parsed.None? {
      return None;
    }
    next := FirstOfNextRuns(parsed.value, now);
  }

  // ---- when a next run exists ---------------------------------------------------------

  /** The field admits a value of its clock range. */
  ghost predicate HasMinute(e: Expression) { exists m | 0 <= m < 60 :: AdmitsMinute(e, m) }
  ghost predicate HasHour(e: Expression) { exists h | 0 <= h < 24 :: AdmitsHour(e, h) }
  ghost predicate HasDayOfWeek(e: Expression) { exists w | 0 <= w < 7 :: AdmitsDayOfWeek(e, w) }

  lemma ClockFields(day: int, h: int, m: int)
    requires 0 <= h < 24 && 0 <= m < 60
    ensures var t := day * 1440 + h * 60 + m;
            DayOf(t) == day && HourField(t) == h && MinuteField(t) == m
  {
    var t := day * 1440 + h * 60 + m;
    assert t / 1440 == day;
    assert t / 60 == day * 24 + h;
  }

  /** The first day on which `offset` minutes into the day is still ahead. */
  function FirstDayAhead(after: int, offset: int): (day: int)
    requires 0 <= offset < 1440
    ensures after + 1 <= day * 1440 + offset <= after + 1440
  {
    (after - offset) / 1440 + 1
  }

  /** A match inside the window bounds the next run. */
  lemma RunBy(e: Expression, after: int, t: int)
    requires Matches(e, t) && after + 1 <= t <= after + MAX_ITERATIONS
    ensures NextRun(e, after).Some? && after + 1 <= NextRun(e, after).value <= t
  {
    FirstIsLeast(MatchSet(e), after + 1, after + MAX_ITERATIONS);
    assert MatchSet(e)(t);
  }

  lemma RunIsMatch(e: Expression, after: int)
    requires NextRun(e, after).Some?
    ensures Matches(e, NextRun(e, after).value) && after + 1 <= NextRun(e, after).value
  {
    FirstIsLeast(MatchSet(e), after + 1, after + MAX_ITERATIONS);
  }

  /** The week minute that a weekday, hour and minute denote, at its first occurrence after `after`. */
  lemma WeekMinute(after: int, w: int, h: int, m: int) returns (t: int)
    requires 0 <= w < 7 && 0 <= h < 24 && 0 <= m < 60
    ensures after + 1 <= t <= after + 10_080
    ensures DayOfWeek(t) == w && HourField(t) == h && MinuteField(t) == m
  {
    var first := FirstDayAhead(after, h * 60 + m);
    var k := (w - (first + 4) % 7) % 7;
    t := (first + k) * 1440 + h * 60 + m;
    ClockFields(first + k, h, m);
  }

  lemma MonthMinute(after: int, d: int, h: int, m: int) returns (t: int)
    requires 1 <= d <= 28 && 0 <= h < 24 && 0 <= m < 60
    ensures after + 1 <= t <= after + 44_640
    ensures DayOfMonth(t) == d && HourField(t) == h && MinuteField(t) == m
  {
    var first := FirstDayAhead(after, h * 60 + m);
    var k := EveryDayOfMonthWithin31Days(first, d);
    t := (first + k) * 1440 + h * 60 + m;
    ClockFields(first + k, h, m);
  }

  /** One week suffices when at most the day of the week restricts the day, and nothing is missing in vain. */
  lemma RunWithinAWeek(e: Expression, after: int)
    requires e.month == "*" && e.dom == "*"
    ensures HasMinute(e) && HasHour(e) && HasDayOfWeek(e) <==>
            NextRun(e, after).Some? && NextRun(e, after).value <= after + 10_080
  {
    if HasMinute(e) && HasHour(e) && HasDayOfWeek(e) {
      var m :| 0 <= m < 60 && AdmitsMinute(e, m);
      var h :| 0 <= h < 24 && AdmitsHour(e, h);
      var w :| 0 <= w < 7 && AdmitsDayOfWeek(e, w);
      var t := WeekMinute(after, w, h, m);
      RunBy(e, after, t);
    }
    if NextRun(e, after).Some? {
      RunIsMatch(e, after);
      var t := NextRun(e, after).value;
      assert AdmitsMinute(e, MinuteField(t)) && AdmitsHour(e, HourField(t)) && AdmitsDayOfWeek(e, DayOfWeek(t));
    }
  }

  /** 31 days suffice when only the day of the month restricts the day and some day up to the 28th is admitted. */
  lemma RunWithinAMonth(e: Expression, after: int, d: int)
    requires e.month == "*" && e.dow == "*" && 1 <= d <= 28 && AdmitsDayOfMonth(e, d)
    ensures HasMinute(e) && HasHour(e) <==>
            NextRun(e, after).Some? && NextRun(e, after).value <= after + 44_640
  {
    if HasMinute(e) && HasHour(e) {
      var m :| 0 <= m < 60 && AdmitsMinute(e, m);
      var h :| 0 <= h < 24 && AdmitsHour(e, h);
      var t := MonthMinute(after, d, h, m);
      RunBy(e, after, t);
    }
    if NextRun(e, after).Some? {
      RunIsMatch(e, after);
      var t := NextRun(e, after).value;
      assert AdmitsMinute(e, MinuteField(t)) && AdmitsHour(e, HourField(t));
    }
  }
}
