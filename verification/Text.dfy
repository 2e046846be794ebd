/** The JavaScript string operations that the modelled code uses. */
module Text {
  import opened Wrappers

  /** White space for trim, \s and parseInt. */
  predicate IsSpace(c: char) {
    || '\U{9}' <= c <= '\U{D}' || c == ' ' || c == '\U{A0}' || c == '\U{1680}' || '\U{2000}' <= c <= '\U{200A}'
    || c == '\U{2028}' || c == '\U{2029}' || c == '\U{202F}' || c == '\U{205F}' || c == '\U{3000}' || c == '\U{FEFF}'
  }

  function TrimStart(s: string): string {
    if s != [] && IsSpace(s[0]) then TrimStart(s[1..]) else s
  }

  function TrimEnd(s: string): string {
    if s != [] && IsSpace(s[|s| - 1]) then TrimEnd(s[..|s| - 1]) else s
  }

  function Trim(s: string): string {
    TrimEnd(TrimStart(s))
  }

  /** s.split(separator) for a one-character separator: never empty. */
  function Split(s: string, separator: char): (parts: seq<string>)
    ensures |parts| >= 1
    ensures separator in s ==> |parts| >= 2
  {
    if s == [] then [[]]
    else if s[0] == separator then [[]] + Split(s[1..], separator)
    else
      var rest := Split(s[1..], separator);
      [[s[0]] + rest[0]] + rest[1..]
  }

  /** s.split(/\s+/) for a trimmed s. */
  function SplitSpaces(s: string): (parts: seq<string>)
    ensures |parts| >= 1
    decreases |s|, 1
  {
    SplitWord(s, [])
  }

  function SplitWord(s: string, word: string): (parts: seq<string>)
    ensures |parts| >= 1
    decreases |s|, 0
  {
    if s == [] then [word]
    else if IsSpace(s[0]) then [word] + SplitSpaces(SkipSpaces(s[1..]))
    else SplitWord(s[1..], word + [s[0]])
  }

  function SkipSpaces(s: string): (r: string)
    ensures |r| <= |s|
  {
    if s != [] && IsSpace(s[0]) then SkipSpaces(s[1..]) else s
  }

  predicate IsDigit(c: char) {
    '0' <= c <= '9'
  }

  function DigitsValue(s: string, value: nat): nat {
    if s != [] && IsDigit(s[0]) then DigitsValue(s[1..], 10 * value + (s[0] as int - '0' as int)) else value
  }

  /** Number.parseInt(s, 10); None stands for NaN. */
  function ParseInt(s: string): Option<int> {
    var t := TrimStart(s);
    var negative := t != [] && t[0] == '-';
    var digits := if t != [] && (t[0] == '-' || t[0] == '+') then t[1..] else t;
    if digits != [] && IsDigit(digits[0]) then
      var value: int := DigitsValue(digits, 0);
      Some(if negative then -value else value)
    else
      None
  }

  function ToLower(s: string): string {
    if s == [] then []
    else [if 'A' <= s[0] <= 'Z' then (s[0] as int + 32) as char else s[0]] + ToLower(s[1..])
  }
}
