/** What whole fields and whole expressions mean: names, ranges, lists, weekdays, and five fields in one text. */
module CronRules {
  import opened Wrappers
  import opened Text
  import opened Calendar
  import opened CronFields
  import opened CronText
  import opened Search
  import opened NextRuns

  // ---- fields ---------------------------------------------------------------------------

  /** A field with one part, which denotes a range, admits what the range contains. */
  lemma OnePartField(text: string, r: Range, value: int, min: int, max: int, aliases: Aliases)
    requires text != "*" && ',' !in text && Trim(text) == text && min <= value <= max
    requires PartRange(text, min, max, aliases) == Some(r) && r.step > 0
    ensures Admits(text, value, min, max, aliases) <==>
            InRange(value, r) || (IsDayOfWeek(min, max) && ((value == 0 && InRange(7, r)) || (value == 7 && InRange(0, r))))
  {
    SplitWhole(text, ',');
    assert PartAdmits([text], 0, value, min, max, aliases) <==>
        exists c | min <= c <= max :: InRange(c, r) && Normalize(c, min, max) == Normalize(value, min, max);
    if InRange(value, r) { assert Normalize(value, min, max) == Normalize(value, min, max); }
    if IsDayOfWeek(min, max) && value == 0 && InRange(7, r) { assert Normalize(7, min, max) == Normalize(0, min, max); }
    if IsDayOfWeek(min, max) && value == 7 && InRange(0, r) { assert Normalize(0, min, max) == Normalize(7, min, max); }
  }

  lemma SameRemainder(distance: int, step: int)
    requires step > 0 && distance >= 0
    ensures distance % step == 0 <==> exists k: nat :: distance == k * step
  {
    if distance % step == 0 {
      assert distance == (distance / step) * step;
    }
    if exists k: nat :: distance == k * step {
      var k: nat :| distance == k * step;
      MultipleMod(k, step);
    }
  }

  /** Main result: "a-b/s" admits a, a + s, a + 2s and so on up to b, and nothing else. */
  lemma RangeField(a: nat, b: nat, s: nat, value: int, min: int, max: int, aliases: Aliases)
    requires s > 0 && AreNames(aliases) && min <= value <= max && !IsDayOfWeek(min, max)
    ensures Admits(Decimal(a) + "-" + Decimal(b) + "/" + Decimal(s), value, min, max, aliases) <==>
            a <= value <= b && exists k: nat :: value - a == k * s
  {
    var text := Decimal(a) + "-" + Decimal(b) + "/" + Decimal(s);
    RangeWithStep(a, b, s, min, max, aliases);
    RangeIsPlain(Decimal(a), Decimal(b), Decimal(s));
    OnePartField(text, Range(a, b, s), value, min, max, aliases);
    StepsInRange(a, b, s, value);
  }

  lemma RangeIsPlain(a: string, b: string, s: string)
    requires AllDigits(a) && AllDigits(b) && AllDigits(s)
    ensures var text := a + "-" + b + "/" + s;
            text != "*" && ',' !in text && Trim(text) == text
  {
    var text := a + "-" + b + "/" + s;
    assert text[|a|] == '-';
    PlainTrims(text);
  }

  lemma StepsInRange(a: nat, b: nat, s: nat, value: int)
    requires s > 0
    ensures InRange(value, Range(a, b, s)) <==> a <= value <= b && exists k: nat :: value - a == k * s
  {
    if a <= value { SameRemainder(value - a, s); }
  }

  /** A name admits the value of its table entry, and 0 and 7 alike for Sunday. */
  lemma NameField(text: string, value: int, min: int, max: int, aliases: Aliases)
    requires AreNames(aliases) && ToLower(text) in aliases && min <= value <= max
    ensures Admits(text, value, min, max, aliases) <==>
            var v := aliases[ToLower(text)];
            value == v || (IsDayOfWeek(min, max) && ((value == 0 && v == 7) || (value == 7 && v == 0)))
  {
    var v := aliases[ToLower(text)];
    NameAtom(text, aliases);
    LowerLetters(text);
    PlainTrims(text);
    NamedValue(text, min, max, aliases);
    OnePartField(text, Range(v, v, 1), value, min, max, aliases);
  }

  /** Main result: a comma joins what two texts admit. */
  lemma ListField(a: string, b: string, value: int, min: int, max: int, aliases: Aliases)
    requires ',' !in a && min <= value <= max
    ensures Admits(a + "," + b, value, min, max, aliases) <==>
            Admits(a, value, min, max, aliases) || Admits(b, value, min, max, aliases)
  {
    var all := Split(a + "," + b, ',');
    SplitAtFirst(a, b, ',');
    SplitWhole(a, ',');
    var later := Split(b, ',');
    assert all == [a] + later;
    StarAdmits(value, min, max, aliases);
    if b == "*" { SplitWhole(b, ','); }
    forall k | 0 <= k < |later|
      ensures PartAdmits(all, k + 1, value, min, max, aliases) == PartAdmits(later, k, value, min, max, aliases)
    {
      assert all[k + 1] == later[k];
    }
    assert PartAdmits(all, 0, value, min, max, aliases) == PartAdmits([a], 0, value, min, max, aliases);
    if exists k | 0 <= k < |all| :: PartAdmits(all, k, value, min, max, aliases) {
      var k :| 0 <= k < |all| && PartAdmits(all, k, value, min, max, aliases);
      if k > 0 { assert PartAdmits(later, k - 1, value, min, max, aliases); }
    }
    assert a + "," + b != "*" by { assert ',' in a + "," + b; }
  }

  lemma StarAdmits(value: int, min: int, max: int, aliases: Aliases)
    requires min <= value <= max
    ensures PartAdmits(["*"], 0, value, min, max, aliases)
  {
    PlainTrims("*");
    assert PartRange("*", min, max, aliases) == Some(Range(min, max, 1));
    assert InRange(value, Range(min, max, 1));
  }

  // ---- names ----------------------------------------------------------------------------

  const WEEK := ["sun", "mon", "tue", "wed", "thu", "fri", "sat"]
  const YEAR := ["jan", "feb", "mar", "apr", "may", "jun", "jul", "aug", "sep", "oct", "nov", "dec"]

  lemma WeekInOrder(k: nat)
    requires k < 7
    ensures WEEK[k] in DAY_ALIASES && DAY_ALIASES[WEEK[k]] == k
  {
  }

  lemma YearInOrder(k: nat)
    requires k < 12
    ensures YEAR[k] in MONTH_ALIASES && MONTH_ALIASES[YEAR[k]] == k + 1
  {
  }

  lemma FirstSunday()
    ensures DateOf(3) == Date(1970, 1, 4)
  {
    DaysRunOn(0, 3);
  }

  /** A name is read in any mixture of cases. */
  lemma {:induction false} AnyCase(text: string, name: string)
    requires |text| == |name| && forall k | 0 <= k < |name| ::
               'a' <= name[k] <= 'z' && (text[k] == name[k] || text[k] as int + 32 == name[k] as int)
    ensures ToLower(text) == name
    decreases |text|
  {
    if text != [] {
      AnyCase(text[1..], name[1..]);
      assert [name[0]] + name[1..] == name;
    }
  }

  /**
   Main result: the k-th weekday name, counted from Sunday, admits exactly the minutes of the days that lie k days and
   any number of whole weeks from day 3, which is Sunday, 4 January 1970 (FirstSunday).
   */
  lemma WeekdayIsNamed(text: string, k: nat, t: int)
    requires k < 7 && ToLower(text) == WEEK[k]
    ensures Admits(text, DayOfWeek(t), 0, 7, DAY_ALIASES) <==> (t / 1440 - (3 + k)) % 7 == 0
  {
    WeekdayField(text, k, DayOfWeek(t));
    WholeWeeks(t / 1440, k);
  }

  lemma WeekdayField(text: string, k: nat, weekday: int)
    requires k < 7 && ToLower(text) == WEEK[k] && 0 <= weekday < 7
    ensures Admits(text, weekday, 0, 7, DAY_ALIASES) <==> weekday == k
    ensures text != "*"
  {
    WeekInOrder(k);
    DaysAreNames();
    NameAtom(text, DAY_ALIASES);
    NameField(text, weekday, 0, 7, DAY_ALIASES);
  }

  lemma WholeWeeks(day: int, k: nat)
    requires k < 7
    ensures (day + 4) % 7 == k <==> (day - (3 + k)) % 7 == 0
  {
    var weeks, rest := (day + 4) / 7, (day + 4) % 7;
    assert day - (3 + k) == 7 * (weeks - 1) + (rest - k);
    if rest < k { assert day - (3 + k) == 7 * (weeks - 2) + (7 + rest - k); }
  }

  /** The k-th month name, counted from January, admits exactly the minutes of that month. */
  lemma MonthIsNamed(text: string, k: nat, t: int)
    requires k < 12 && ToLower(text) == YEAR[k]
    ensures Admits(text, MonthField(t), 1, 12, MONTH_ALIASES) <==> DateOf(t / 1440).month == k + 1
  {
    YearInOrder(k);
    MonthsAreNames();
    NameField(text, MonthField(t), 1, 12, MONTH_ALIASES);
  }

  // ---- expressions ----------------------------------------------------------------------

  /** "m h d * weekday" is due at that time on every such day of the month and on every such weekday. */
  lemma DateOrWeekday(m: nat, h: nat, d: nat, weekday: string, k: nat, t: int)
    requires m < 60 && h < 24 && 1 <= d <= 31 && k < 7 && ToLower(weekday) == WEEK[k]
    ensures MatchSet(Expression(Decimal(m), Decimal(h), Decimal(d), "*", weekday))(t) <==>
            MinuteField(t) == m && HourField(t) == h && (DayOfMonth(t) == d || DayOfWeek(t) == k)
  {
    NumeralField(m, MinuteField(t), 0, 59, map[]);
    NumeralField(h, HourField(t), 0, 23, map[]);
    NumeralField(d, DayOfMonth(t), 1, 31, map[]);
    NumeralIsNoStar(d);
    WeekdayField(weekday, k, DayOfWeek(t));
    EitherDay(Expression(Decimal(m), Decimal(h), Decimal(d), "*", weekday), t);
  }

  lemma EitherDay(e: Expression, t: int)
    requires e.dom != "*" && e.dow != "*" && e.month == "*"
    ensures MatchSet(e)(t) <==>
            && AdmitsMinute(e, MinuteField(t)) && AdmitsHour(e, HourField(t))
            && (AdmitsDayOfMonth(e, DayOfMonth(t)) || AdmitsDayOfWeek(e, DayOfWeek(t)))
  {
  }

  /** A field of an expression's text: not empty, and without white space. */
  predicate IsField(s: string) {
    s != [] && IsPlain(s)
  }

  lemma {:induction false} WordAndRest(field: string, word: string, rest: string)
    requires IsPlain(field) && IsPlain(word)
    ensures SplitWord(field + " " + rest, word) == [word + field] + SplitSpaces(SkipSpaces(rest))
    decreases |field|
  {
    var s := field + " " + rest;
    if field == [] {
      assert s[1..] == rest && word + field == word;
    } else {
      assert s[0] == field[0] && s[1..] == field[1..] + " " + rest;
      assert word + field == word + [field[0]] + field[1..];
      WordAndRest(field[1..], word + [field[0]], rest);
    }
  }

  lemma {:induction false} WordAlone(field: string, word: string)
    requires IsPlain(field)
    ensures SplitWord(field, word) == [word + field]
    decreases |field|
  {
    if field == [] {
      assert word + field == word;
    } else {
      assert word + field == word + [field[0]] + field[1..];
      WordAlone(field[1..], word + [field[0]]);
    }
  }

  /** Fields with single spaces between them. */
  function Spaced(fields: seq<string>): string
    requires fields != []
  {
    if |fields| == 1 then fields[0] else fields[0] + " " + Spaced(fields[1..])
  }

  lemma {:induction false} SpacedSplits(fields: seq<string>)
    requires fields != [] && forall k | 0 <= k < |fields| :: IsField(fields[k])
    ensures SplitSpaces(Spaced(fields)) == fields && Spaced(fields) != []
    ensures !IsSpace(Spaced(fields)[0]) && !IsSpace(Spaced(fields)[|Spaced(fields)| - 1])
    decreases |fields|
  {
    if |fields| == 1 {
      WordAlone(fields[0], []);
      assert [] + fields[0] == fields[0];
    } else {
      var rest := Spaced(fields[1..]);
      SpacedSplits(fields[1..]);
      WordAndRest(fields[0], [], rest);
      assert [] + fields[0] == fields[0] && [fields[0]] + fields[1..] == fields;
      assert SkipSpaces(rest) == rest;
    }
  }

  /** Main result: a text of fields with spaces between them is an expression exactly if there are five. */
  lemma ExpressionReadsBack(fields: seq<string>)
    requires fields != [] && forall k | 0 <= k < |fields| :: IsField(fields[k])
    ensures ParseExpression(Spaced(fields))
            == if |fields| == 5 then Some(Expression(fields[0], fields[1], fields[2], fields[3], fields[4])) else None
  {
    SpacedSplits(fields);
    assert Trim(Spaced(fields)) == Spaced(fields);
  }
}
