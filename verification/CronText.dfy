/**
 What the text of a cron field part means: numerals, ranges, steps and names are read as written, and exactly the
 other parts are skipped.
 */
module CronText {
  import opened Wrappers
  import opened Text
  import opened CronFields

  // ---- numerals -----------------------------------------------------------------------

  function Digit(d: nat): char
    requires d < 10
  {
    (d + '0' as int) as char
  }

  /** The decimal numeral of a number. */
  function Decimal(n: nat): (s: string)
    ensures s != []
    ensures forall k | 0 <= k < |s| :: IsDigit(s[k])
  {
    if n < 10 then [Digit(n)] else Decimal(n / 10) + [Digit(n % 10)]
  }

  lemma NumeralIsNoStar(n: nat)
    ensures Decimal(n) != "*"
  {
    assert IsDigit(Decimal(n)[0]);
  }

  predicate AllDigits(s: string) {
    forall k | 0 <= k < |s| :: IsDigit(s[k])
  }

  lemma {:induction false} DigitsInFront(a: string, b: string, value: nat)
    requires AllDigits(a)
    ensures DigitsValue(a + b, value) == DigitsValue(b, DigitsValue(a, value))
    decreases |a|
  {
    if a == [] {
      assert a + b == b;
    } else {
      assert (a + b)[1..] == a[1..] + b;
      DigitsInFront(a[1..], b, 10 * value + (a[0] as int - '0' as int));
    }
  }

  lemma {:induction false} DecimalValue(n: nat)
    ensures DigitsValue(Decimal(n), 0) == n
  {
    if n >= 10 {
      DecimalValue(n / 10);
      DigitsInFront(Decimal(n / 10), [Digit(n % 10)], 0);
      assert [Digit(n % 10)][1..] == [];
    } else {
      assert [Digit(n)][1..] == [];
    }
  }

  predicate StartsWithDigit(s: string) {
    s != [] && IsDigit(s[0])
  }

  /** A numeral is read back, whatever text without a digit follows it. */
  lemma NumeralReads(n: nat, rest: string)
    requires !StartsWithDigit(rest)
    ensures ParseInt(Decimal(n) + rest) == Some(n)
  {
    var s := Decimal(n) + rest;
    assert s[0] == Decimal(n)[0];
    assert TrimStart(s) == s;
    DecimalValue(n);
    DigitsInFront(Decimal(n), rest, 0);
  }

  // ---- trimming and splitting -----------------------------------------------------------

  predicate IsPlain(s: string) {
    forall k | 0 <= k < |s| :: !IsSpace(s[k])
  }

  lemma PlainTrims(s: string)
    requires IsPlain(s)
    ensures TrimStart(s) == s && Trim(s) == s
  {
  }

  lemma {:induction false} SplitWhole(s: string, separator: char)
    requires separator !in s
    ensures Split(s, separator) == [s]
  {
    if s != [] {
      SplitWhole(s[1..], separator);
      assert [s[0]] + s[1..] == s;
    }
  }

  lemma {:induction false} SplitAtFirst(a: string, b: string, separator: char)
    requires separator !in a
    ensures Split(a + [separator] + b, separator) == [a] + Split(b, separator)
    decreases |a|
  {
    var s := a + [separator] + b;
    if a == [] {
      assert s[1..] == b;
    } else {
      assert s[1..] == a[1..] + [separator] + b;
      SplitAtFirst(a[1..], b, separator);
      assert [a[0]] + a[1..] == a;
    }
  }

  lemma SplitTwo(a: string, b: string, separator: char)
    requires separator !in a && separator !in b
    ensures Split(a + [separator] + b, separator) == [a, b]
  {
    SplitAtFirst(a, b, separator);
    SplitWhole(b, separator);
  }

  lemma {:induction false} LowerDigits(s: string)
    requires AllDigits(s)
    ensures ToLower(s) == s
  {
    if s != [] {
      LowerDigits(s[1..]);
      assert [s[0]] + s[1..] == s;
    }
  }

  // ---- atoms ----------------------------------------------------------------------------

  predicate IsName(s: string) {
    s != [] && forall k | 0 <= k < |s| :: 'a' <= s[k] <= 'z'
  }

  /** Names consist of lower-case letters. */
  predicate AreNames(aliases: Aliases) {
    forall name | name in aliases :: IsName(name)
  }

  lemma MonthsAreNames()
    ensures AreNames(MONTH_ALIASES)
  {
    assert IsName("jan") && IsName("feb") && IsName("mar") && IsName("apr") && IsName("may") && IsName("jun");
    assert IsName("jul") && IsName("aug") && IsName("sep") && IsName("oct") && IsName("nov") && IsName("dec");
    assert MONTH_ALIASES.Keys == {"jan", "feb", "mar", "apr", "may", "jun", "jul", "aug", "sep", "oct", "nov", "dec"};
    assert forall name | name in MONTH_ALIASES :: name in MONTH_ALIASES.Keys;
  }

  lemma DaysAreNames()
    ensures AreNames(DAY_ALIASES)
  {
    assert IsName("sun") && IsName("mon") && IsName("tue") && IsName("wed") && IsName("thu") && IsName("fri") && IsName("sat");
    assert DAY_ALIASES.Keys == {"sun", "mon", "tue", "wed", "thu", "fri", "sat"};
    assert forall name | name in DAY_ALIASES :: name in DAY_ALIASES.Keys;
  }

  lemma NumeralAtom(n: nat, aliases: Aliases)
    requires AreNames(aliases)
    ensures ParseCronAtom(Decimal(n), aliases) == Some(n)
  {
    var s := Decimal(n);
    PlainTrims(s);
    LowerDigits(s);
    NumeralReads(n, []);
    assert s + [] == s;
    assert IsDigit(s[0]);
  }

  lemma {:induction false} LowerLetters(s: string)
    requires forall k | 0 <= k < |ToLower(s)| :: 'a' <= ToLower(s)[k] <= 'z'
    ensures |ToLower(s)| == |s|
    ensures forall k | 0 <= k < |s| :: 'a' <= s[k] <= 'z' || 'A' <= s[k] <= 'Z'
  {
    if s != [] {
      var lower := ToLower(s);
      assert lower[0] == if 'A' <= s[0] <= 'Z' then (s[0] as int + 32) as char else s[0];
      assert lower[1..] == ToLower(s[1..]);
      LowerLetters(s[1..]);
    }
  }

  /** A name is read in any mixture of cases. */
  lemma NameAtom(text: string, aliases: Aliases)
    requires AreNames(aliases) && ToLower(text) in aliases
    ensures ParseCronAtom(text, aliases) == Some(aliases[ToLower(text)])
    ensures '-' !in text && '/' !in text && ',' !in text && text != "*" && text != []
  {
    LowerLetters(text);
    PlainTrims(text);
  }

  // ---- parts ----------------------------------------------------------------------------

  /** Main result: "a-b/s" denotes every s-th value from a to b. */
  lemma RangeWithStep(a: nat, b: nat, s: nat, min: int, max: int, aliases: Aliases)
    requires s > 0 && AreNames(aliases)
    ensures PartRange(Decimal(a) + "-" + Decimal(b) + "/" + Decimal(s), min, max, aliases) == Some(Range(a, b, s))
  {
    var range := Decimal(a) + "-" + Decimal(b);
    var part := range + "/" + Decimal(s);
    Stepped(range, s);
    Bounds(a, b, min, max, aliases);
    assert part[|range|] == '/';
  }

  /** The step of a part whose range text has no slash. */
  lemma Stepped(range: string, s: nat)
    requires '/' !in range
    ensures Split(range + "/" + Decimal(s), '/') == [range, Decimal(s)]
    ensures ParseInt(Decimal(s)) == Some(s)
  {
    SplitTwo(range, Decimal(s), '/');
    NumeralReads(s, []);
    assert Decimal(s) + [] == Decimal(s);
  }

  lemma Bounds(a: nat, b: nat, min: int, max: int, aliases: Aliases)
    requires AreNames(aliases)
    ensures BoundsOf(Decimal(a) + "-" + Decimal(b), min, max, aliases) == Some((a, b))
  {
    var text := Decimal(a) + "-" + Decimal(b);
    SplitTwo(Decimal(a), Decimal(b), '-');
    NumeralAtom(a, aliases);
    NumeralAtom(b, aliases);
    assert text[|Decimal(a)|] == '-';
    assert |text| >= 3;
  }

  lemma RangeWithoutStep(a: nat, b: nat, min: int, max: int, aliases: Aliases)
    requires AreNames(aliases)
    ensures PartRange(Decimal(a) + "-" + Decimal(b), min, max, aliases) == Some(Range(a, b, 1))
  {
    Bounds(a, b, min, max, aliases);
  }

  /** "*" and "*" with a step cover the field's whole range. */
  lemma WholeRange(s: nat, min: int, max: int, aliases: Aliases)
    requires s > 0
    ensures PartRange("*/" + Decimal(s), min, max, aliases) == Some(Range(min, max, s))
    ensures PartRange("*", min, max, aliases) == Some(Range(min, max, 1))
  {
    Stepped("*", s);
    assert "*" + "/" + Decimal(s) == "*/" + Decimal(s);
    assert ("*/" + Decimal(s))[1] == '/';
  }

  /** A single number is a range of one value, and a step on it changes nothing. */
  lemma SingleValue(a: nat, s: nat, min: int, max: int, aliases: Aliases)
    requires s > 0 && AreNames(aliases)
    ensures PartRange(Decimal(a), min, max, aliases) == Some(Range(a, a, 1))
    ensures PartRange(Decimal(a) + "/" + Decimal(s), min, max, aliases) == Some(Range(a, a, s))
  {
    NumeralAtom(a, aliases);
    Stepped(Decimal(a), s);
    NumeralIsNoStar(a);
    assert (Decimal(a) + "/" + Decimal(s))[|Decimal(a)|] == '/';
  }

  /** A month or weekday name stands for its number, in any mixture of cases. */
  lemma NamedValue(text: string, min: int, max: int, aliases: Aliases)
    requires AreNames(aliases) && ToLower(text) in aliases
    ensures PartRange(text, min, max, aliases) == Some(Range(aliases[ToLower(text)], aliases[ToLower(text)], 1))
  {
    NameAtom(text, aliases);
  }

  lemma NamedMonth(text: string)
    requires ToLower(text) in MONTH_ALIASES
    ensures PartRange(text, 1, 12, MONTH_ALIASES) == Some(Range(MONTH_ALIASES[ToLower(text)], MONTH_ALIASES[ToLower(text)], 1))
  {
    MonthsAreNames();
    NamedValue(text, 1, 12, MONTH_ALIASES);
  }

  lemma NamedDay(text: string)
    requires ToLower(text) in DAY_ALIASES
    ensures PartRange(text, 0, 7, DAY_ALIASES) == Some(Range(DAY_ALIASES[ToLower(text)], DAY_ALIASES[ToLower(text)], 1))
  {
    DaysAreNames();
    NamedValue(text, 0, 7, DAY_ALIASES);
  }

  // ---- skipped parts --------------------------------------------------------------------

  /** An optional sign and then a digit. */
  predicate StartsWithInteger(s: string) {
    StartsWithDigit(if s != [] && (s[0] == '-' || s[0] == '+') then s[1..] else s)
  }

  /** Some digit of the leading digits is not zero. */
  ghost predicate LeadsNonzero(s: string) {
    exists k | 0 <= k < |s| :: s[k] != '0' && AllDigits(s[..k + 1])
  }

  lemma NonzeroStarts(s: string)
    requires LeadsNonzero(s)
    ensures StartsWithDigit(s)
  {
    var k :| 0 <= k < |s| && s[k] != '0' && AllDigits(s[..k + 1]);
    assert s[..k + 1][0] == s[0];
  }

  lemma {:induction false} PositiveIff(s: string, value: nat)
    ensures DigitsValue(s, value) > 0 <==> value > 0 || LeadsNonzero(s)
    decreases |s|
  {
    if StartsWithDigit(s) {
      PositiveIff(s[1..], 10 * value + (s[0] as int - '0' as int));
      if LeadsNonzero(s[1..]) {
        var k :| 0 <= k < |s[1..]| && s[1..][k] != '0' && AllDigits(s[1..][..k + 1]);
        assert s[..k + 2] == [s[0]] + s[1..][..k + 1];
        assert s[k + 1] != '0' && AllDigits(s[..k + 2]);
      }
      if s[0] != '0' {
        assert AllDigits(s[..0 + 1]);
      } else if LeadsNonzero(s) {
        var k :| 0 <= k < |s| && s[k] != '0' && AllDigits(s[..k + 1]);
        assert s[1..][..k] == s[..k + 1][1..];
        assert s[1..][k - 1] != '0' && AllDigits(s[1..][..k - 1 + 1]);
      }
    } else if LeadsNonzero(s) {
      NonzeroStarts(s);
    }
  }

  /** The step is read as a positive number: no minus sign, and a digit other than zero among the leading digits. */
  ghost predicate IsStep(text: string) {
    var t := TrimStart(text);
    t != [] && t[0] != '-' && LeadsNonzero(if t[0] == '+' then t[1..] else t)
  }

  lemma StepIff(text: string)
    ensures IsStep(text) <==> ParseInt(text).Some? && ParseInt(text).value > 0
  {
    var t := TrimStart(text);
    if t != [] {
      var digits := if t[0] == '-' || t[0] == '+' then t[1..] else t;
      PositiveIff(digits, 0);
      if LeadsNonzero(digits) {
        NonzeroStarts(digits);
      }
    }
  }

  /** A name, or a text that starts with an integer. */
  predicate IsAtom(text: string, aliases: Aliases) {
    ToLower(Trim(text)) in aliases || StartsWithInteger(TrimStart(ToLower(Trim(text))))
  }

  lemma AtomIff(text: string, aliases: Aliases)
    requires AreNames(aliases)
    ensures IsAtom(text, aliases) <==> ParseCronAtom(text, aliases).Some?
  {
  }

  /** The range text is a star, two atoms at the first hyphen, or one atom. */
  predicate HasBounds(text: string, aliases: Aliases) {
    || text == "*"
    || (if '-' in text then IsAtom(Split(text, '-')[0], aliases) && IsAtom(Split(text, '-')[1], aliases)
        else IsAtom(text, aliases))
  }

  /** Main result: exactly these parts are skipped. */
  lemma SkippedIff(part: string, min: int, max: int, aliases: Aliases)
    requires AreNames(aliases)
    ensures PartRange(part, min, max, aliases).None? <==>
            || part == []
            || !HasBounds(Split(part, '/')[0], aliases)
            || ('/' in part && !IsStep(Split(part, '/')[1]))
  {
    if '/' in part {
      StepIff(Split(part, '/')[1]);
    } else {
      SplitWhole(part, '/');
    }
    BoundsIff(Split(part, '/')[0], min, max, aliases);
  }

  lemma BoundsIff(text: string, min: int, max: int, aliases: Aliases)
    requires AreNames(aliases)
    ensures HasBounds(text, aliases) <==> BoundsOf(text, min, max, aliases).Some?
  {
    if text != "*" {
      if '-' in text {
        AtomIff(Split(text, '-')[0], aliases);
        AtomIff(Split(text, '-')[1], aliases);
      } else {
        AtomIff(text, aliases);
      }
    }
  }

  // ---- whole fields ---------------------------------------------------------------------

  /** A field that is one number admits that number only. */
  lemma NumeralField(n: nat, value: int, min: int, max: int, aliases: Aliases)
    requires AreNames(aliases) && min <= n <= max && !IsDayOfWeek(min, max)
    ensures Admits(Decimal(n), value, min, max, aliases) <==> value == n
  {
    var field := Decimal(n);
    SplitWhole(field, ',');
    PlainTrims(field);
    SingleValue(n, 1, min, max, aliases);
    NumeralIsNoStar(n);
    assert PartAdmits([field], 0, value, min, max, aliases) <==> value == n by {
      if value == n { assert InRange(n, Range(n, n, 1)); }
    }
    assert Split(field, ',')[0] == field;
  }
}
