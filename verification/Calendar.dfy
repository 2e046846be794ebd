/**
 A clock with a fixed offset, counted in whole minutes: minute 0 is 1 January 1970, 00:00,
 a Thursday. Dates follow the Gregorian calendar.
 */
module Calendar {

  datatype Date = Date(year: int, month: int, day: int)

  predicate IsLeapYear(year: int) {
    year % 4 == 0 && (year % 100 != 0 || year % 400 == 0)
  }

  function DaysIn(year: int, month: int): (days: int)
    ensures 28 <= days <= 31
  {
    if month == 2 then (if IsLeapYear(year) then 29 else 28)
    else if month == 4 || month == 6 || month == 9 || month == 11 then 30
    else 31
  }

  predicate IsDate(d: Date) {
    1 <= d.month <= 12 && 1 <= d.day <= DaysIn(d.year, d.month)
  }

  function NextDay(d: Date): (next: Date)
    requires IsDate(d)
    ensures IsDate(next)
  {
    if d.day < DaysIn(d.year, d.month) then Date(d.year, d.month, d.day + 1)
    else if d.month < 12 then Date(d.year, d.month + 1, 1)
    else Date(d.year + 1, 1, 1)
  }

  function PreviousDay(d: Date): (previous: Date)
    requires IsDate(d)
    ensures IsDate(previous) && NextDay(previous) == d
  {
    if d.day > 1 then Date(d.year, d.month, d.day - 1)
    else if d.month > 1 then Date(d.year, d.month - 1, DaysIn(d.year, d.month - 1))
    else Date(d.year - 1, 12, 31)
  }

  /** The date that is `day` days after 1 January 1970. */
  function DateOf(day: int): (d: Date)
    ensures IsDate(d)
    decreases if day < 0 then -day else day
  {
    if day == 0 then Date(1970, 1, 1)
    else if day > 0 then NextDay(DateOf(day - 1))
    else PreviousDay(DateOf(day + 1))
  }

  lemma DayAfter(day: int)
    ensures DateOf(day + 1) == NextDay(DateOf(day))
  {
  }

  function DayOf(minute: int): int { minute / 1440 }

  function MinuteField(minute: int): (m: int)
    ensures 0 <= m < 60
  {
    minute % 60
  }

  function HourField(minute: int): (h: int)
    ensures 0 <= h < 24
  {
    minute / 60 % 24
  }

  function DayOfMonth(minute: int): (d: int)
    ensures 1 <= d <= 31
  {
    DateOf(DayOf(minute)).day
  }

  function MonthField(minute: int): (m: int)
    ensures 1 <= m <= 12
  {
    DateOf(DayOf(minute)).month
  }

  /** Sunday is 0. */
  function DayOfWeek(minute: int): (w: int)
    ensures 0 <= w < 7
  {
    (DayOf(minute) + 4) % 7
  }

  /** Days that run on inside one month. */
  lemma {:induction false} DaysRunOn(day: int, k: nat)
    requires DateOf(day).day + k <= DaysIn(DateOf(day).year, DateOf(day).month)
    ensures DateOf(day + k) == Date(DateOf(day).year, DateOf(day).month, DateOf(day).day + k)
  {
    if k > 0 {
      DaysRunOn(day, k - 1);
      DayAfter(day + k - 1);
    }
  }

  lemma NextMonth(day: int, rest: nat)
    requires rest == DaysIn(DateOf(day).year, DateOf(day).month) - DateOf(day).day
    ensures DateOf(day + rest + 1).day == 1
  {
    DaysRunOn(day, rest);
    DayAfter(day + rest);
  }

  /** Any 31 consecutive days contain every day of the month up to the 28th. */
  lemma EveryDayOfMonthWithin31Days(first: int, wanted: int) returns (k: nat)
    requires 1 <= wanted <= 28
    ensures k <= 30 && DateOf(first + k).day == wanted
  {
    var d := DateOf(first);
    if d.day <= wanted {
      k := wanted - d.day;
      DaysRunOn(first, k);
    } else {
      var rest := DaysIn(d.year, d.month) - d.day;
      NextMonth(first, rest);
      DaysRunOn(first + rest + 1, wanted - 1);
      k := rest + wanted;
    }
  }

  // ---- years ----------------------------------------------------------------------------

  function YearLength(year: int): int {
    if IsLeapYear(year) then 366 else 365
  }

  /** Days of the year before the month begins. */
  function DaysBefore(year: int, month: int): int
    requires 1 <= month <= 12
  {
    [0, 31, 59, 90, 120, 151, 181, 212, 243, 273, 304, 334][month - 1] + if month > 2 && IsLeapYear(year) then 1 else 0
  }

  /** The day of the year, counted from 0. */
  function DayOfYear(d: Date): int
    requires IsDate(d)
  {
    DaysBefore(d.year, d.month) + d.day - 1
  }

  lemma DayOfYearRange(d: Date)
    requires IsDate(d)
    ensures 0 <= DayOfYear(d) < YearLength(d.year)
    ensures DayOfYear(d) == YearLength(d.year) - 1 <==> d.month == 12 && d.day == 31
  {
  }

  lemma DayOfYearAdvances(d: Date)
    requires IsDate(d)
    ensures if DayOfYear(d) == YearLength(d.year) - 1 then NextDay(d) == Date(d.year + 1, 1, 1)
            else NextDay(d).year == d.year && DayOfYear(NextDay(d)) == DayOfYear(d) + 1
  {
    DayOfYearRange(d);
  }

  lemma SameDayOfYear(a: Date, b: Date)
    requires IsDate(a) && IsDate(b) && a.year == b.year && DayOfYear(a) == DayOfYear(b)
    ensures a == b
  {
    if a.month < b.month { MonthsApart(a, b); }
    if b.month < a.month { MonthsApart(b, a); }
  }

  lemma MonthsApart(a: Date, b: Date)
    requires IsDate(a) && IsDate(b) && a.year == b.year && a.month < b.month
    ensures DayOfYear(a) < DayOfYear(b)
  {
  }

  /** Days that run on inside one year. */
  lemma {:induction false} DaysRunOnInYear(day: int, k: nat)
    requires DayOfYear(DateOf(day)) + k < YearLength(DateOf(day).year)
    ensures DateOf(day + k).year == DateOf(day).year && DayOfYear(DateOf(day + k)) == DayOfYear(DateOf(day)) + k
  {
    if k > 0 {
      DaysRunOnInYear(day, k - 1);
      DayAfter(day + k - 1);
      DayOfYearAdvances(DateOf(day + k - 1));
    }
  }

  lemma AfterLastDay(day: int, d: Date)
    requires d == DateOf(day) && DayOfYear(d) == YearLength(d.year) - 1
    ensures DateOf(day + 1) == Date(d.year + 1, 1, 1)
  {
    DayAfter(day);
    DayOfYearAdvances(d);
  }

  lemma NewYear(day: int, d: Date, left: nat)
    requires d == DateOf(day) && left == YearLength(d.year) - DayOfYear(d) && left > 0
    ensures DateOf(day + left) == Date(d.year + 1, 1, 1)
  {
    DaysRunOnInYear(day, left - 1);
    AfterLastDay(day + (left - 1), DateOf(day + (left - 1)));
    assert day + (left - 1) + 1 == day + left;
  }

  /** The dates of the days after `day`, up to the end of the next year. */
  lemma DaysRunOnIntoNextYear(day: int, left: nat, k: nat)
    requires left == YearLength(DateOf(day).year) - DayOfYear(DateOf(day))
    requires left <= k < left + YearLength(DateOf(day).year + 1)
    ensures DateOf(day + k).year == DateOf(day).year + 1 && DayOfYear(DateOf(day + k)) == k - left
  {
    DayOfYearRange(DateOf(day));
    NewYear(day, DateOf(day), left);
    var newYear := day + left;
    assert DateOf(newYear) == Date(DateOf(day).year + 1, 1, 1);
    DaysRunOnInYear(newYear, k - left);
    assert newYear + (k - left) == day + k;
  }

  /** Leap years up to and including the year, counted by the rule of the Gregorian calendar. */
  function LeapYearsUpTo(year: int): int {
    year / 4 - year / 100 + year / 400
  }

  lemma DivStep(year: int, n: int)
    requires n == 4 || n == 100 || n == 400
    ensures year / n - (year - 1) / n == if year % n == 0 then 1 else 0
  {
    var q, r := year / n, year % n;
    assert year == q * n + r;
    if n == 4 { } else if n == 100 { } else { }
  }

  lemma Hundreds(k: int)
    ensures (100 * k) % 100 == 0 && (4 * k) % 4 == 0
  {
  }

  lemma Centuries(year: int)
    ensures year % 400 == 0 ==> year % 100 == 0
    ensures year % 100 == 0 ==> year % 4 == 0
  {
    if year % 400 == 0 {
      var k := 4 * (year / 400);
      assert year == 100 * k;
      Hundreds(k);
    }
    if year % 100 == 0 {
      var k := 25 * (year / 100);
      assert year == 4 * k;
      Hundreds(k);
    }
  }

  lemma OneMoreLeapYear(year: int)
    ensures YearLength(year) == 365 + LeapYearsUpTo(year) - LeapYearsUpTo(year - 1)
  {
    DivStep(year, 4);
    DivStep(year, 100);
    DivStep(year, 400);
    Centuries(year);
  }

  /** The number of a date's day, counted from 1 January 1970. */
  function DayNumber(d: Date): int
    requires IsDate(d)
  {
    365 * (d.year - 1970) + LeapYearsUpTo(d.year - 1) - LeapYearsUpTo(1969) + DayOfYear(d)
  }

  lemma {:induction false} NewYearsDay(year: int)
    requires year >= 1970
    ensures DateOf(DayNumber(Date(year, 1, 1))) == Date(year, 1, 1)
    decreases year
  {
    if year > 1970 {
      var last := Date(year - 1, 1, 1);
      NewYearsDay(year - 1);
      OneMoreLeapYear(year - 1);
      NewYear(DayNumber(last), last, YearLength(year - 1));
    }
  }

  /** Main result: every date since 1970 is the date of its day number, leap years and month lengths included. */
  lemma DateOfDayNumber(d: Date)
    requires IsDate(d) && d.year >= 1970
    ensures DateOf(DayNumber(d)) == d
  {
    NewYearsDay(d.year);
    FromNewYear(d);
    DayInYear(DayNumber(Date(d.year, 1, 1)), d, DayNumber(d));
  }

  lemma FromNewYear(d: Date)
    requires IsDate(d)
    ensures DayNumber(d) == DayNumber(Date(d.year, 1, 1)) + DayOfYear(d)
  {
    assert DayOfYear(Date(d.year, 1, 1)) == 0;
  }

  lemma DayInYear(newYear: int, d: Date, day: int)
    requires IsDate(d) && DateOf(newYear) == Date(d.year, 1, 1) && day == newYear + DayOfYear(d)
    ensures DateOf(day) == d
  {
    DayOfYearRange(d);
    assert DayOfYear(Date(d.year, 1, 1)) == 0;
    DaysRunOnInYear(newYear, DayOfYear(d));
    SameDayOfYear(DateOf(day), d);
  }

  /** A leap day lies between a date in the month and the same date one year later, or is that date. */
  predicate LeapDayAhead(year: int, month: int) {
    if month <= 2 then IsLeapYear(year) else IsLeapYear(year + 1)
  }

  /** The next day with the same date comes 365 days later, or, across a leap day, not before 366 days. */
  lemma NextAnniversary(day: int, k: nat)
    requires 0 < k <= 365
    ensures var d, e := DateOf(day), DateOf(day + k);
            e.month == d.month && e.day == d.day <==> k == 365 && !LeapDayAhead(d.year, d.month)
  {
    var d, e := DateOf(day), DateOf(day + k);
    DayOfYearRange(d);
    DayOfYearRange(e);
    if DayOfYear(d) + k < YearLength(d.year) {
      DaysRunOnInYear(day, k);
      assert e.year == d.year && DayOfYear(e) != DayOfYear(d);
      assert k != 365 || LeapDayAhead(d.year, d.month) by {
        if k == 365 { assert DayOfYear(d) == 0 && IsLeapYear(d.year) && d.month <= 2; }
      }
    } else {
      DaysRunOnIntoNextYear(day, YearLength(d.year) - DayOfYear(d), k);
      SameDateNextYear(d, e, k);
    }
  }

  lemma SameDateNextYear(d: Date, e: Date, k: nat)
    requires IsDate(d) && IsDate(e) && e.year == d.year + 1 && 0 < k <= 365
    requires DayOfYear(e) == k - (YearLength(d.year) - DayOfYear(d))
    ensures e.month == d.month && e.day == d.day <==> k == 365 && !LeapDayAhead(d.year, d.month)
  {
    if k == 365 && !LeapDayAhead(d.year, d.month) {
      SameDayOfYear(e, Date(d.year + 1, d.month, d.day));
    }
  }
}
