/** Schedules that are due once a year: when the catch-up walk finds the next date, and when it stops for good. */
module Yearly {
  import opened Wrappers
  import opened Calendar
  import opened CronFields
  import opened CronText
  import opened Search
  import opened NextRuns
  import opened CatchUp

  /** The set contains one clock time of one date of every year. */
  ghost predicate OncePerYear(p: int -> bool, m: int, h: int, d: int, month: int) {
    forall t :: p(t) <==> MinuteField(t) == m && HourField(t) == h && DayOfMonth(t) == d && MonthField(t) == month
  }

  function YearOf(minute: int): int {
    DateOf(DayOf(minute)).year
  }

  /** Minutes with the same clock time lie whole days apart. */
  lemma WholeDaysApart(t: int, u: int)
    requires MinuteField(t) == MinuteField(u) && HourField(t) == HourField(u)
    ensures u == t + (DayOf(u) - DayOf(t)) * 1440
  {
    assert t == DayOf(t) * 1440 + HourField(t) * 60 + MinuteField(t) by { ClockParts(t); }
    assert u == DayOf(u) * 1440 + HourField(u) * 60 + MinuteField(u) by { ClockParts(u); }
  }

  lemma ClockParts(t: int)
    ensures t == DayOf(t) * 1440 + HourField(t) * 60 + MinuteField(t)
  {
    assert t / 1440 == t / 60 / 24;
    assert t == t / 60 * 60 + t % 60;
    assert t / 60 == t / 60 / 24 * 24 + t / 60 % 24;
  }

  lemma SameTimeLater(t: int, days: int)
    ensures var u := t + days * 1440;
            DayOf(u) == DayOf(t) + days && MinuteField(u) == MinuteField(t) && HourField(u) == HourField(t)
  {
    ClockParts(t);
    var u := t + days * 1440;
    assert u == (DayOf(t) + days) * 1440 + HourField(t) * 60 + MinuteField(t);
    ClockFields(DayOf(t) + days, HourField(t), MinuteField(t));
  }

  /** Within the search window after a match, only the same date one year later can match. */
  lemma MatchesInWindow(p: int -> bool, m: int, h: int, d: int, month: int, minute: int, t: int)
    requires OncePerYear(p, m, h, d, month) && p(minute) && minute < t <= minute + 1 + MAX_ITERATIONS
    ensures p(t) <==> t == minute + 365 * 1440 && !LeapDayAhead(YearOf(minute), month)
  {
    var k := DayOf(t) - DayOf(minute);
    if p(t) {
      WholeDaysApart(minute, t);
      assert 0 < k <= 365;
      NextAnniversary(DayOf(minute), k);
    }
    if t == minute + 365 * 1440 && !LeapDayAhead(YearOf(minute), month) {
      SameTimeLater(minute, 365);
      NextAnniversary(DayOf(minute), 365);
    }
  }

  /**
   Main result: after a slot of a once-a-year schedule the successor is the same date of the next year, and it is
   found exactly if no leap day comes before it.
   */
  lemma YearlySuccessorIff(p: int -> bool, m: int, h: int, d: int, month: int, minute: int)
    requires OncePerYear(p, m, h, d, month) && p(minute)
    ensures NextSlot(p, minute) == if LeapDayAhead(YearOf(minute), month) then None else Some(minute + 365 * 1440)
  {
    var low, high := minute + 2, minute + 1 + MAX_ITERATIONS;
    forall t | low <= t <= high
      ensures p(t) <==> t == minute + 365 * 1440 && !LeapDayAhead(YearOf(minute), month)
    {
      MatchesInWindow(p, m, h, d, month, minute, t);
    }
    FirstIsLeast(p, low, high);
  }

  /** Once a slot is due that no leap day follows in a year, the walk goes on; otherwise it stores no next run. */
  lemma YearlyWalkStopsIff(p: int -> bool, m: int, h: int, d: int, month: int, minute: int, now: int, left: nat)
    requires OncePerYear(p, m, h, d, month) && p(minute) && minute <= now < minute + 365 * 1440 && left > 0
    ensures WalkMinutes(p, Some(minute), now, left)
            == ([minute], if LeapDayAhead(YearOf(minute), month) then None else Some(minute + 365 * 1440))
  {
    YearlySuccessorIff(p, m, h, d, month, minute);
    WalkGoesOn(p, minute, now, left);
    WalkEnds(p, NextSlot(p, minute), now, left - 1);
    assert [minute] + [] == [minute];
  }

  /** However late the pass comes, a slot before a leap day is the last one that the schedule ever attempts. */
  lemma YearlyWalkStopsForGood(p: int -> bool, m: int, h: int, d: int, month: int, minute: int, now: int, later: int, left: nat)
    requires OncePerYear(p, m, h, d, month) && p(minute) && minute <= now && left > 0
    requires LeapDayAhead(YearOf(minute), month)
    ensures WalkMinutes(p, Some(minute), now, left) == ([minute], None)
    ensures WalkMinutes(p, WalkMinutes(p, Some(minute), now, left).1, later, left) == ([], None)
  {
    YearlySuccessorIff(p, m, h, d, month, minute);
    WalkGoesOn(p, minute, now, left);
    WalkEnds(p, None, now, left - 1);
    WalkEnds(p, None, later, left);
    assert [minute] + [] == [minute];
  }

  /** With the weekday left open and a day given, the four other fields decide. */
  lemma FieldsDecide(e: Expression, t: int, m: bool, h: bool, d: bool, month: bool)
    requires e.dow == "*" && e.dom != "*"
    requires AdmitsMinute(e, MinuteField(t)) == m && AdmitsHour(e, HourField(t)) == h
    requires AdmitsDayOfMonth(e, DayOfMonth(t)) == d && AdmitsMonth(e, MonthField(t)) == month
    ensures MatchSet(e)(t) <==> m && h && d && month
  {
  }

  lemma YearlyAt(m: nat, h: nat, d: nat, month: nat, t: int)
    requires m < 60 && h < 24 && 1 <= d <= 31 && 1 <= month <= 12
    ensures MatchSet(Expression(Decimal(m), Decimal(h), Decimal(d), Decimal(month), "*"))(t) <==>
            MinuteField(t) == m && HourField(t) == h && DayOfMonth(t) == d && MonthField(t) == month
  {
    MonthsAreNames();
    NumeralField(m, MinuteField(t), 0, 59, map[]);
    NumeralField(h, HourField(t), 0, 23, map[]);
    NumeralField(d, DayOfMonth(t), 1, 31, map[]);
    NumeralField(month, MonthField(t), 1, 12, MONTH_ALIASES);
    NumeralIsNoStar(d);
    FieldsDecide(Expression(Decimal(m), Decimal(h), Decimal(d), Decimal(month), "*"), t,
                 MinuteField(t) == m, HourField(t) == h, DayOfMonth(t) == d, MonthField(t) == month);
  }

  /** "m h d month *" is such a schedule. */
  lemma YearlyExpression(m: nat, h: nat, d: nat, month: nat)
    requires m < 60 && h < 24 && 1 <= d <= 31 && 1 <= month <= 12
    ensures OncePerYear(MatchSet(Expression(Decimal(m), Decimal(h), Decimal(d), Decimal(month), "*")), m, h, d, month)
  {
    forall t
      ensures MatchSet(Expression(Decimal(m), Decimal(h), Decimal(d), Decimal(month), "*"))(t) <==>
              MinuteField(t) == m && HourField(t) == h && DayOfMonth(t) == d && MonthField(t) == month
    {
      YearlyAt(m, h, d, month, t);
    }
  }
}
