/** One field of a cron expression: the code's scan of it, and the set of values it denotes. */
module CronFields {
  import opened Wrappers
  import opened Text

  type Aliases = map<string, int>

  const MONTH_ALIASES: Aliases :=
    map["jan" := 1, "feb" := 2, "mar" := 3, "apr" := 4, "may" := 5, "jun" := 6,
        "jul" := 7, "aug" := 8, "sep" := 9, "oct" := 10, "nov" := 11, "dec" := 12]

  const DAY_ALIASES: Aliases :=
    map["sun" := 0, "mon" := 1, "tue" := 2, "wed" := 3, "thu" := 4, "fri" := 5, "sat" := 6]

  /** start, start + step, ... up to end */
  datatype Range = Range(start: int, end: int, step: int)

  predicate InRange(c: int, r: Range)
    requires r.step > 0
  {
    r.start <= c <= r.end && (c - r.start) % r.step == 0
  }

  function ParseCronAtom(token: string, aliases: Aliases): Option<int> {
    var normalized := ToLower(Trim(token));
    if normalized == [] then None
    else if normalized in aliases then Some(aliases[normalized])
    else ParseInt(normalized)
  }

  /** The bounds written in a part, without its step. */
  function BoundsOf(text: string, min: int, max: int, aliases: Aliases): Option<(int, int)> {
    if text == "*" then Some((min, max))
    else if '-' in text then
      var ends := Split(text, '-');
      var first, last := ParseCronAtom(ends[0], aliases), ParseCronAtom(ends[1], aliases);
      if first.None? || last.None? then None else Some((first.value, last.value))
    else
      var only := ParseCronAtom(text, aliases);
      if only.None? then None else Some((only.value, only.value))
  }

  /** The range that one comma-separated part denotes; None when the code skips the part. */
  function PartRange(part: string, min: int, max: int, aliases: Aliases): (r: Option<Range>)
    ensures r.Some? ==> r.value.step > 0
  {
    if part == [] then None
    else
      var step := if '/' in part then ParseInt(Split(part, '/')[1]) else Some(1);
      var text := if '/' in part then Split(part, '/')[0] else part;
      var bounds := BoundsOf(text, min, max, aliases);
      if step.None? || step.value <= 0 || bounds.None? then None
      else Some(Range(bounds.value.0, bounds.value.1, step.value))
  }

  predicate IsDayOfWeek(min: int, max: int) {
    min == 0 && max == 7
  }

  /** 7 is another name for Sunday. */
  function Normalize(value: int, min: int, max: int): int {
    if IsDayOfWeek(min, max) && value == 7 then 0 else value
  }

  /** The part at index k denotes the value. */
  predicate PartAdmits(parts: seq<string>, k: nat, value: int, min: int, max: int, aliases: Aliases)
    requires k < |parts|
  {
    var r := PartRange(Trim(parts[k]), min, max, aliases);
    r.Some? && exists c | min <= c <= max :: InRange(c, r.value) && Normalize(c, min, max) == Normalize(value, min, max)
  }

  /** The value is in the union of the field's ranges, restricted to [min, max]. */
  predicate Admits(field: string, value: int, min: int, max: int, aliases: Aliases) {
    || field == "*"
    || exists k | 0 <= k < |Split(field, ',')| :: PartAdmits(Split(field, ','), k, value, min, max, aliases)
  }

  lemma NextInRange(r: Range, candidate: int, c: int)
    requires r.step > 0 && r.start <= candidate && (candidate - r.start) % r.step == 0 && InRange(c, r)
    ensures c <= candidate || c >= candidate + r.step
  {
    if c > candidate {
      MultiplesApart(candidate - r.start, c - r.start, r.step);
    }
  }

  /** Different multiples of a step are a step apart. */
  lemma MultiplesApart(x: int, y: int, step: int)
    requires step > 0 && x % step == 0 && y % step == 0 && x < y
    ensures x + step <= y
  {
    var d := y / step - x / step;
    assert y - x == d * step by {
      assert x == step * (x / step) && y == step * (y / step);
    }
    if d <= 0 {
      NotPositive(d, step);
    } else {
      Multiple(d, step);
    }
  }

  lemma NotPositive(n: int, step: int)
    requires n <= 0 && step > 0
    ensures n * step <= 0
  {
  }

  lemma Multiple(n: int, step: int)
    requires n >= 1 && step > 0
    ensures n * step >= step
  {
  }

  lemma StepOn(x: int, step: int)
    requires step > 0 && x % step == 0
    ensures (x + step) % step == 0
  {
    var q := x / step;
    assert x == q * step;
    assert x + step == (q + 1) * step;
    MultipleMod(q + 1, step);
  }

  lemma {:induction false} MultipleMod(q: int, step: int)
    requires step > 0
    ensures (q * step) % step == 0
  {
    var x := q * step;
    assert x == step * (x / step) + x % step;
    var d := q - x / step;
    assert d * step == x % step;
    if d >= 1 { Multiple(d, step); }
    if d <= -1 { Multiple(-d, step); }
  }

  /** The scan of one range, candidate by candidate. */
  method ScanRange(r: Range, value: int, min: int, max: int) returns (found: bool)
    requires r.step > 0
    ensures found <==> exists c | min <= c <= max :: InRange(c, r) && Normalize(c, min, max) == Normalize(value, min, max)
  {
    var isDayOfWeek := min == 0 && max == 7;
    var normalizedValue := if isDayOfWeek && value == 7 then 0 else value;
    var candidate := r.start;
    assert (candidate - r.start) % r.step == 0;
    while candidate <= r.end
      invariant r.start <= candidate && (candidate - r.start) % r.step == 0
      invariant forall c | min <= c <= max && c < candidate && InRange(c, r) ::
                  Normalize(c, min, max) != Normalize(value, min, max)
      decreases r.end - candidate
    {
      if min <= candidate <= max {
        if candidate == normalizedValue || (isDayOfWeek && candidate == 7 && normalizedValue == 0) {
          assert InRange(candidate, r);
          return true;
        }
      }
      forall c | InRange(c, r)
        ensures c <= candidate || c >= candidate + r.step
      {
        NextInRange(r, candidate, c);
      }
      StepOn(candidate - r.start, r.step);
      candidate := candidate + r.step;
    }
    return false;
  }

  /** The loop body of matchesCronField up to its scan: the range of one trimmed part, unless the part is skipped. */
  method ReadPart(part: string, min: int, max: int, aliases: Aliases) returns (range: Option<Range>)
    ensures range == PartRange(part, min, max, aliases)
  {
    if part == [] {
      return None;
    }
    var rangePart, step := part, 1;
    if '/' in part {
      var pieces := Split(part, '/');
      var parsedStep := ParseInt(pieces[1]);
      if parsedStep.None? || parsedStep.value <= 0 {
        return None;
      }
      rangePart, step := pieces[0], parsedStep.value;
    }
    var start, end := min, max;
    if rangePart != "*" {
      if '-' in rangePart {
        var tokens := Split(rangePart, '-');
        var parsedStart, parsedEnd := ParseCronAtom(tokens[0], aliases), ParseCronAtom(tokens[1], aliases);
        if parsedStart.None? || parsedEnd.None? {
          return None;
        }
        start, end := parsedStart.value, parsedEnd.value;
      } else {
        var parsed := ParseCronAtom(rangePart, aliases);
        if parsed.None? {
          return None;
        }
        start, end := parsed.value, parsed.value;
      }
    }
    return Some(Range(start, end, step));
  }

  method PartMatches(parts: seq<string>, k: nat, value: int, min: int, max: int, aliases: Aliases) returns (found: bool)
    requires k < |parts|
    ensures found == PartAdmits(parts, k, value, min, max, aliases)
  {
    var range := ReadPart(Trim(parts[k]), min, max, aliases);
    if range.None? {
      return false;
    }
    found := ScanRange(range.value, value, min, max);
  }

  /** matchesCronField: true exactly for the values the field denotes. */
  method MatchesCronField(field: string, value: int, min: int, max: int, aliases: Aliases) returns (matches: bool)
    ensures matches == Admits(field, value, min, max, aliases)
  {
    if field == "*" {
      return true;
    }
    var parts := Split(field, ',');
    var i := 0;
    while i < |parts|
      invariant 0 <= i <= |parts|
      invariant forall k | 0 <= k < i :: !PartAdmits(parts, k, value, min, max, aliases)
    {
      var found := PartMatches(parts, i, value, min, max, aliases);
      if found {
        return true;
      }
      i := i + 1;
    }
    return false;
  }

  /** Sunday may be written 0 or 7. */
  lemma SundayHasTwoNames(field: string, aliases: Aliases)
    ensures Admits(field, 0, 0, 7, aliases) == Admits(field, 7, 0, 7, aliases)
  {
    forall k | 0 <= k < |Split(field, ',')|
      ensures PartAdmits(Split(field, ','), k, 0, 0, 7, aliases) == PartAdmits(Split(field, ','), k, 7, 0, 7, aliases)
    {
    }
  }
}
