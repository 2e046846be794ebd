/**
 Shell quoting against the quoting rules of the POSIX shell: sections 2.2.2 (single quotes), 2.2.3 (double
 quotes) and 2.3 (token recognition) of POSIX.1-2017 XCU. The lexer gives up (Stuck) where more than quoting
 decides the meaning of a character: operators, expansions, backslashes, newlines, patterns and comments.
 */
module ShellQuoting {
  import opened Wrappers
  import opened Text

  datatype Quoting = Unquoted | InSingle | InDouble

  datatype LexState =
    | Lexing(words: seq<string>, word: Option<string>, mode: Quoting)
    | Stuck

  const START := Lexing([], None, Unquoted)

  predicate IsBlank(c: char) {
    c == ' ' || c == '\t'
  }

  /** Outside quotes the character stands for itself, wherever it is in a word. */
  predicate IsOrdinary(c: char) {
    !IsBlank(c) && c !in {'|', '&', ';', '<', '>', '(', ')', '$', '`', '\\', '"', '\'', '\n', '*', '?', '[', '#', '~', '=', '%'}
  }

  function Append(st: LexState, c: char): LexState
    requires st.Lexing?
  {
    Lexing(st.words, Some(st.word.GetOr("") + [c]), st.mode)
  }

  function Step(st: LexState, c: char): LexState {
    match st
    case Stuck => Stuck
    case Lexing(words, word, Unquoted) =>
      if c == '\'' then Lexing(words, Some(word.GetOr("")), InSingle)
      else if c == '"' then Lexing(words, Some(word.GetOr("")), InDouble)
      else if IsBlank(c) then Lexing(Finished(st), None, Unquoted)
      else if IsOrdinary(c) then Append(st, c)
      else Stuck
    case Lexing(words, word, InSingle) =>
      if c == '\'' then Lexing(words, word, Unquoted) else Append(st, c)
    case Lexing(words, word, InDouble) =>
      if c == '"' then Lexing(words, word, Unquoted)
      else if c == '$' || c == '`' || c == '\\' then Stuck
      else Append(st, c)
  }

  function Finished(st: LexState): seq<string>
    requires st.Lexing?
  {
    if st.word.None? then st.words else st.words + [st.word.value]
  }

  function Run(st: LexState, text: string): LexState
    decreases |text|
  {
    if text == [] then st else Run(Step(st, text[0]), text[1..])
  }

  /** The words of a command line, if quoting alone decides them. */
  function Lex(line: string): Option<seq<string>> {
    var st := Run(START, line);
    if st.Lexing? && st.mode == Unquoted then Some(Finished(st)) else None
  }

  lemma {:induction false} RunConcat(st: LexState, a: string, b: string)
    ensures Run(st, a + b) == Run(Run(st, a), b)
    decreases |a|
  {
    if a == [] {
      assert a + b == b;
    } else {
      assert (a + b)[1..] == a[1..] + b;
      RunConcat(Step(st, a[0]), a[1..], b);
    }
  }

  // ---- shellEscape --------------------------------------------------------------------

  /** value.replace(/'/g, ...): each single quote is closed, double-quoted and reopened. */
  function EscapeQuotes(value: string): string {
    if value == [] then []
    else (if value[0] == '\'' then "'\"'\"'" else [value[0]]) + EscapeQuotes(value[1..])
  }

  function ShellEscape(value: string): string {
    "'" + EscapeQuotes(value) + "'"
  }

  lemma QuotedQuoteRuns(words: seq<string>, w: string)
    ensures Run(Lexing(words, Some(w), InSingle), "'\"'\"'") == Lexing(words, Some(w + "'"), InSingle)
  {
    var text := "'\"'\"'";
    assert text[1..][1..][1..][1..][1..] == [];
  }

  lemma {:induction false} EscapedBodyRuns(words: seq<string>, w: string, value: string)
    ensures Run(Lexing(words, Some(w), InSingle), EscapeQuotes(value)) == Lexing(words, Some(w + value), InSingle)
    decreases |value|
  {
    if value == [] {
      assert w + value == w;
    } else {
      var head := if value[0] == '\'' then "'\"'\"'" else [value[0]];
      RunConcat(Lexing(words, Some(w), InSingle), head, EscapeQuotes(value[1..]));
      if value[0] == '\'' {
        QuotedQuoteRuns(words, w);
      } else {
        assert head[1..] == [];
        assert Run(Step(Lexing(words, Some(w), InSingle), head[0]), head[1..]) == Lexing(words, Some(w + [value[0]]), InSingle);
      }
      EscapedBodyRuns(words, w + [value[0]], value[1..]);
      assert w + [value[0]] + value[1..] == w + value;
    }
  }

  /** An escaped value is read back as a piece of one word, whatever it contains. */
  lemma EscapedRuns(words: seq<string>, word: Option<string>, value: string)
    ensures Run(Lexing(words, word, Unquoted), ShellEscape(value))
            == Lexing(words, Some(word.GetOr("") + value), Unquoted)
  {
    var w := word.GetOr("");
    RunConcat(Lexing(words, word, Unquoted), "'" + EscapeQuotes(value), "'");
    RunConcat(Lexing(words, word, Unquoted), "'", EscapeQuotes(value));
    assert "'"[1..] == [];
    assert Run(Step(Lexing(words, word, Unquoted), '\''), "'"[1..]) == Lexing(words, Some(w), InSingle);
    EscapedBodyRuns(words, w, value);
    assert Run(Step(Lexing(words, Some(w + value), InSingle), '\''), "'"[1..]) == Lexing(words, Some(w + value), Unquoted);
  }

  function Join(parts: seq<string>): string {
    if parts == [] then [] else if |parts| == 1 then parts[0] else parts[0] + " " + Join(parts[1..])
  }

  /** Each part, read from the start of a word, is one word. */
  ghost predicate ReadsAs(part: string, word: string) {
    forall words :: Run(Lexing(words, None, Unquoted), part) == Lexing(words, Some(word), Unquoted)
  }

  lemma {:induction false} JoinedRuns(parts: seq<string>, args: seq<string>, words: seq<string>)
    requires |parts| == |args| > 0 && forall k | 0 <= k < |parts| :: ReadsAs(parts[k], args[k])
    ensures var st := Run(Lexing(words, None, Unquoted), Join(parts));
            st.Lexing? && st.mode == Unquoted && Finished(st) == words + args
    decreases |parts|
  {
    var start := Lexing(words, None, Unquoted);
    assert ReadsAs(parts[0], args[0]);
    if |parts| == 1 {
      assert words + [args[0]] == words + args;
    } else {
      RunConcat(start, parts[0] + " ", Join(parts[1..]));
      RunConcat(start, parts[0], " ");
      assert " "[1..] == [];
      assert Run(Step(Lexing(words, Some(args[0]), Unquoted), ' '), " "[1..]) == Lexing(words + [args[0]], None, Unquoted);
      JoinedRuns(parts[1..], args[1..], words + [args[0]]);
      assert words + [args[0]] + args[1..] == words + args;
    }
  }

  lemma JoinedLexes(parts: seq<string>, args: seq<string>)
    requires |parts| == |args| && forall k | 0 <= k < |parts| :: ReadsAs(parts[k], args[k])
    ensures Lex(Join(parts)) == Some(args)
  {
    if parts != [] {
      JoinedRuns(parts, args, []);
      assert [] + args == args;
    }
  }

  lemma EscapedReadsAs(value: string)
    ensures ReadsAs(ShellEscape(value), value)
  {
    forall words
      ensures Run(Lexing(words, None, Unquoted), ShellEscape(value)) == Lexing(words, Some(value), Unquoted)
    {
      EscapedRuns(words, None, value);
      assert "" + value == value;
    }
  }

  predicate IsPlainWord(s: string) {
    s != [] && forall k | 0 <= k < |s| :: IsOrdinary(s[k])
  }

  lemma {:induction false} OrdinaryRuns(words: seq<string>, word: Option<string>, s: string)
    requires forall k | 0 <= k < |s| :: IsOrdinary(s[k])
    ensures Run(Lexing(words, word, Unquoted), s)
            == Lexing(words, if s == [] then word else Some(word.GetOr("") + s), Unquoted)
    decreases |s|
  {
    if s != [] {
      var w := word.GetOr("") + [s[0]];
      OrdinaryRuns(words, Some(w), s[1..]);
      assert s == [s[0]] + s[1..];
      assert w + s[1..] == word.GetOr("") + s;
      assert s[1..] == [] ==> w == w + s[1..];
    }
  }

  lemma PlainReadsAs(s: string)
    requires IsPlainWord(s)
    ensures ReadsAs(s, s)
  {
    forall words
      ensures Run(Lexing(words, None, Unquoted), s) == Lexing(words, Some(s), Unquoted)
    {
      OrdinaryRuns(words, None, s);
      assert "" + s == s;
    }
  }

  function EscapeAll(args: seq<string>): (r: seq<string>)
    ensures |r| == |args| && forall k | 0 <= k < |r| :: r[k] == ShellEscape(args[k])
  {
    seq(|args|, k requires 0 <= k < |args| => ShellEscape(args[k]))
  }

  /** Main result: escaping, joining with spaces and lexing gives every argument list back. */
  lemma EscapedListLexesBack(args: seq<string>)
    ensures Lex(Join(EscapeAll(args))) == Some(args)
  {
    forall k | 0 <= k < |args|
      ensures ReadsAs(EscapeAll(args)[k], args[k])
    {
      EscapedReadsAs(args[k]);
    }
    JoinedLexes(EscapeAll(args), args);
  }

  // ---- run as user --------------------------------------------------------------------

  const RUN_AS_USER_AUTH_MODE := "passwordless-sudo"
  const SCRIPT_BIN := "/usr/bin/script"

  datatype LaunchError = InvalidUser | UnsupportedAuthMode
  datatype Launch<T> = Ready(value: T) | Refused(error: LaunchError)

  predicate IsNameStart(c: char) { 'A' <= c <= 'Z' || 'a' <= c <= 'z' || c == '_' }
  predicate IsNamePart(c: char) { IsNameStart(c) || IsDigit(c) || c == '.' || c == '-' }

  /** A letter or underscore, up to 62 more name characters, and possibly a final dollar sign. */
  predicate IsUserName(s: string) {
    && s != [] && IsNameStart(s[0])
    && |NameBody(s)| <= 62 && forall k | 0 <= k < |NameBody(s)| :: IsNamePart(NameBody(s)[k])
  }

  /** What lies between the first character and a final dollar sign. */
  function NameBody(s: string): string
    requires s != [] && s[0] != '$'
  {
    if s[|s| - 1] == '$' then s[1..|s| - 1] else s[1..]
  }

  function NormalizeRunAsUser(value: Option<string>): Launch<Option<string>> {
    if value.None? || Trim(value.value) == [] then Ready(None)
    else if IsUserName(Trim(value.value)) then Ready(Some(Trim(value.value)))
    else Refused(InvalidUser)
  }

  /** buildRunAsUserLaunchArgs; `useTTY` already includes the check for Linux. */
  function LaunchArgs(shell: string, command: string, useTTY: bool, runAsUser: Option<string>, authMode: Option<string>)
    : Launch<seq<string>>
  {
    match NormalizeRunAsUser(runAsUser)
    case Refused(error) => Refused(error)
    case Ready(None) =>
      if useTTY then Ready([SCRIPT_BIN, "-qefc", shell + " -lc " + ShellEscape(command), "/dev/null"])
      else Ready([shell, "-lc", command])
    case Ready(Some(user)) =>
      if authMode.Some? && authMode.value != [] && authMode.value != RUN_AS_USER_AUTH_MODE then Refused(UnsupportedAuthMode)
      else if useTTY then
        Ready([SCRIPT_BIN, "-qefc",
               Join(["sudo", "-n", "-E", "-u", ShellEscape(user), "--", ShellEscape(shell), "-lc", ShellEscape(command)]),
               "/dev/null"])
      else Ready(["sudo", "-n", "-E", "-u", user, "--", shell, "-lc", command])
  }

  lemma FlagsReadAs(s: string)
    requires s in ["sudo", "-n", "-E", "-u", "--", "-lc"]
    ensures ReadsAs(s, s)
  {
    PlainReadsAs(s);
  }

  lemma SudoPartsLex(name: string, shell: string, command: string)
    ensures Lex(Join(["sudo", "-n", "-E", "-u", ShellEscape(name), "--", ShellEscape(shell), "-lc", ShellEscape(command)]))
            == Some(["sudo", "-n", "-E", "-u", name, "--", shell, "-lc", command])
  {
    var args := ["sudo", "-n", "-E", "-u", name, "--", shell, "-lc", command];
    var parts := args[4 := ShellEscape(name)][6 := ShellEscape(shell)][8 := ShellEscape(command)];
    assert parts == ["sudo", "-n", "-E", "-u", ShellEscape(name), "--", ShellEscape(shell), "-lc", ShellEscape(command)];
    forall k | 0 <= k < |parts|
      ensures ReadsAs(parts[k], args[k])
    {
      if k in {4, 6, 8} {
        EscapedReadsAs(args[k]);
      } else {
        FlagsReadAs(args[k]);
      }
    }
    JoinedLexes(parts, args);
  }

  /** What `script` hands to a shell, as that shell's words. */
  function TerminalWords(args: seq<string>): Option<seq<string>> {
    if |args| == 4 && args[0] == "/usr/bin/script" && args[1] == "-qefc" && args[3] == "/dev/null" then Lex(args[2]) else None
  }

  /** The user and the command of a sudo call that asks for no password and keeps the environment. */
  function SudoCall(words: seq<string>): Option<(string, seq<string>)> {
    if |words| >= 6 && words[..4] == ["sudo", "-n", "-E", "-u"] && words[5] == "--" then Some((words[4], words[6..])) else None
  }

  /** A user that is named, up to white space around it. */
  predicate IsNamed(runAsUser: Option<string>) {
    runAsUser.Some? && Trim(runAsUser.value) != []
  }

  /**
   Main result: what is launched. In both forms the given shell runs the given command, as the named user if there is
   one, and both refuse exactly the names that are no user names and the modes that are not passwordless sudo.
   */
  lemma LaunchRuns(shell: string, command: string, runAsUser: Option<string>, authMode: Option<string>)
    ensures var tty, plain := LaunchArgs(shell, command, true, runAsUser, authMode), LaunchArgs(shell, command, false, runAsUser, authMode);
            && (plain.Refused? <==> tty.Refused?)
            && (plain.Refused? <==>
                  && IsNamed(runAsUser)
                  && (!IsUserName(Trim(runAsUser.value)) || authMode !in {None, Some([]), Some("passwordless-sudo")}))
            && (plain.Ready? && IsNamed(runAsUser) ==>
                  && SudoCall(plain.value) == Some((Trim(runAsUser.value), [shell, "-lc", command]))
                  && TerminalWords(tty.value) == Some(plain.value))
            && (plain.Ready? && !IsNamed(runAsUser) ==>
                  && plain.value == [shell, "-lc", command]
                  && (TerminalWords(tty.value) == Some(plain.value) <== IsPlainWord(shell)))
  {
    var user := NormalizeRunAsUser(runAsUser);
    if user.Ready? && user.value.Some? {
      var name := user.value.value;
      SudoPartsLex(name, shell, command);
      assert ["sudo", "-n", "-E", "-u", name, "--", shell, "-lc", command][..4] == ["sudo", "-n", "-E", "-u"];
      assert ["sudo", "-n", "-E", "-u", name, "--", shell, "-lc", command][6..] == [shell, "-lc", command];
    } else if user.Ready? && IsPlainWord(shell) {
      PlainShellLexes(shell, command);
    }
  }

  /** Of a user name, the first `n` characters before a final dollar sign. */
  predicate IsNameUpTo(s: string, n: nat) {
    && 1 <= n <= 63 && n <= |s| && (s[n..] == [] || s[n..] == ['$'])
    && ('A' <= s[0] <= 'Z' || 'a' <= s[0] <= 'z' || s[0] == '_')
    && forall k | 1 <= k < n :: 'A' <= s[k] <= 'Z' || 'a' <= s[k] <= 'z' || '0' <= s[k] <= '9' || s[k] in {'_', '.', '-'}
  }

  /** A user name starts with a letter or underscore, goes on for up to 62 characters, and may end in a dollar sign. */
  lemma UserNameIff(s: string)
    ensures IsUserName(s) <==> exists n: nat :: IsNameUpTo(s, n)
  {
    if IsUserName(s) {
      var n: nat := if s[|s| - 1] == '$' then |s| - 1 else |s|;
      var body := NameBody(s);
      forall k | 1 <= k < n
        ensures IsNamePart(s[k])
      {
        assert body[k - 1] == s[k] && IsNamePart(body[k - 1]);
      }
      assert s[n..] == if n < |s| then ['$'] else [];
      assert IsNameUpTo(s, n);
    }
    if exists n: nat :: IsNameUpTo(s, n) {
      var n: nat :| IsNameUpTo(s, n);
      NameUpTo(s, n);
    }
  }

  lemma NameUpTo(s: string, n: nat)
    requires IsNameUpTo(s, n)
    ensures IsUserName(s)
  {
    var body := NameBody(s);
    if s[n..] == [] {
      assert |s| == n && s[n - 1] != '$';
    } else {
      assert |s| == n + 1 && s[n] == s[n..][0];
    }
    forall k | 0 <= k < |body|
      ensures IsNamePart(body[k])
    {
      assert body[k] == s[k + 1] && k + 1 < n;
    }
  }

  /** Main result: with a user, the terminal form runs exactly the arguments of the plain form. */
  lemma LaunchFormsAgree(shell: string, command: string, runAsUser: Option<string>, authMode: Option<string>)
    requires NormalizeRunAsUser(runAsUser) != Ready(None)
    ensures var tty, plain := LaunchArgs(shell, command, true, runAsUser, authMode), LaunchArgs(shell, command, false, runAsUser, authMode);
            && (tty.Refused? ==> plain == tty)
            && (tty.Ready? ==> plain.Ready? && |tty.value| == 4 && Lex(tty.value[2]) == Some(plain.value))
  {
    var user := NormalizeRunAsUser(runAsUser);
    if user.Ready? {
      SudoPartsLex(user.value.value, shell, command);
    }
  }

  // ---- without a user the shell is not escaped ----------------------------------------

  function Total(words: seq<string>): nat {
    if words == [] then 0 else |words[0]| + Total(words[1..])
  }

  function Kept(st: LexState): nat
    requires st.Lexing?
  {
    Total(st.words) + if st.word.None? then 0 else |st.word.value|
  }

  lemma {:induction false} TotalAppend(words: seq<string>, w: string)
    ensures Total(words + [w]) == Total(words) + |w|
  {
    if words == [] {
      assert words + [w] == [w] && [w][1..] == [];
    } else {
      assert (words + [w])[1..] == words[1..] + [w];
      TotalAppend(words[1..], w);
    }
  }

  lemma {:induction false} NoCharacterIsDoubled(st: LexState, s: string)
    requires st.Lexing? && Run(st, s).Lexing?
    ensures Kept(Run(st, s)) <= Kept(st) + |s|
    ensures st.mode == Unquoted && Kept(Run(st, s)) == Kept(st) + |s| ==> forall k | 0 <= k < |s| :: IsOrdinary(s[k])
    decreases |s|
  {
    if s != [] {
      var next := Step(st, s[0]);
      if next == Stuck {
        StuckStays(s[1..]);
        assert false;
      } else {
        if st.word.Some? { TotalAppend(st.words, st.word.value); }
        NoCharacterIsDoubled(next, s[1..]);
      }
    }
  }

  lemma {:induction false} StuckStays(s: string)
    ensures Run(Stuck, s) == Stuck
  {
    if s != [] { StuckStays(s[1..]); }
  }

  lemma RunOne(st: LexState, c: char, rest: string)
    ensures Run(st, [c] + rest) == Run(Step(st, c), rest)
  {
    assert ([c] + rest)[1..] == rest;
  }

  /** The rest of the line for an empty command, read after the shell's text: an open quotation stays open. */
  lemma EmptyCommandTail(st: LexState)
    ensures var end := Run(st, " " + ("-lc" + (" " + "''")));
            if st.Lexing? && st.mode == Unquoted then end == Lexing(Finished(st) + ["-lc"], Some(""), Unquoted)
            else end == Stuck || (end.Lexing? && end.mode != Unquoted)
  {
    RunOne(st, ' ', "-lc" + (" " + "''"));
    var s1 := Step(st, ' ');
    RunConcat(s1, "-lc", " " + "''");
    var s4 := Run(s1, "-lc");
    RunOne(s4, ' ', "''");
    var s5 := Step(s4, ' ');
    if st == Stuck {
      StuckStays("-lc");
      StuckStays("''");
    } else if st.mode == Unquoted {
      OrdinaryRuns(Finished(st), None, "-lc");
      assert "" + "-lc" == "-lc";
      TwoQuotes(s5);
    } else {
      QuotedFlag(s1);
      TwoQuotes(s5);
    }
  }

  lemma QuotedFlag(st: LexState)
    requires st.Lexing? && st.mode != Unquoted
    ensures var end := Run(st, "-lc"); end.Lexing? && end.mode == st.mode
  {
    assert "-lc"[1..] == "lc" && "lc"[1..] == "c" && "c"[1..] == "";
  }

  lemma TwoQuotes(st: LexState)
    ensures Run(st, "''") == Step(Step(st, '\''), '\'')
  {
    assert "''"[1..] == "'" && "'"[1..] == "";
  }

  lemma LexesToItself(shell: string)
    requires Lex(shell) == Some([shell])
    ensures IsPlainWord(shell)
  {
    var st := Run(START, shell);
    if st.word.Some? { TotalAppend(st.words, st.word.value); }
    assert Total([shell]) == |shell| by { assert [shell][1..] == []; }
    assert Kept(st) == Total(Finished(st));
    NoCharacterIsDoubled(START, shell);
  }

  lemma PlainShellLexes(shell: string, command: string)
    requires IsPlainWord(shell)
    ensures Lex(shell + " -lc " + ShellEscape(command)) == Some([shell, "-lc", command])
  {
    PlainReadsAs(shell);
    FlagsReadAs("-lc");
    EscapedReadsAs(command);
    var last := ShellEscape(command);
    var parts := [shell, "-lc", last];
    JoinedLexes(parts, [shell, "-lc", command]);
    assert parts[1..] == ["-lc", last] && ["-lc", last][1..] == [last];
    assert Join(["-lc", last]) == "-lc" + " " + last;
    assert Join(parts) == shell + " " + ("-lc" + " " + last);
    assert shell + " " + ("-lc" + " " + last) == shell + " -lc " + last;
  }

  lemma OnlyPlainShellsLex(shell: string)
    requires Lex(shell + " -lc " + ShellEscape("")) == Some([shell, "-lc", ""])
    ensures IsPlainWord(shell)
  {
    var tail := " " + ("-lc" + (" " + "''"));
    assert shell + " -lc " + ShellEscape("") == shell + tail;
    RunConcat(START, shell, tail);
    var st := Run(START, shell);
    EmptyCommandTail(st);
    var words := Finished(st);
    assert words + ["-lc"] + [""] == [shell, "-lc", ""];
    assert words == (words + ["-lc"] + [""])[..|words|] == [shell];
    LexesToItself(shell);
  }

  /**
   Main result: without a user, the terminal form runs the plain form's arguments for every command exactly
   if the shell setting is a single word without special characters.
   */
  lemma PlainTerminalFormAgreesIff(shell: string)
    ensures (forall command :: AgreesWithPlain(shell, command)) <==> IsPlainWord(shell)
  {
    if IsPlainWord(shell) {
      forall command
        ensures AgreesWithPlain(shell, command)
      {
        PlainShellLexes(shell, command);
      }
    } else if forall command :: AgreesWithPlain(shell, command) {
      assert AgreesWithPlain(shell, "");
      OnlyPlainShellsLex(shell);
    }
  }

  /** Without a user, the words of the terminal form are the shell, its flag and the command. */
  predicate AgreesWithPlain(shell: string, command: string) {
    var tty := LaunchArgs(shell, command, true, None, None);
    tty.Ready? && TerminalWords(tty.value) == Some([shell, "-lc", command])
  }
}
