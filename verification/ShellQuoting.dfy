/** Quoting of command line arguments for a POSIX shell and for cmd.exe, and what the other side
    makes of the result. */
module ShellQuoting {
  import opened Basics

  // A character set as the source stores it: one bit for each of the first 128 characters.
  type CharTable = t: seq<int> | |t| == 16 && forall i :: 0 <= i < 16 ==> 0 <= t[i] < 0x100
    witness [0, 0, 0, 0, 0, 0, 0, 0, 0, 0, 0, 0, 0, 0, 0, 0]

  // 0-32 \'"$`<>|;&(){}*?#!~[]
  const UNIX_SPECIAL: CharTable :=
    [0xff, 0xff, 0xff, 0xff, 0xdf, 0x07, 0x00, 0xd8, 0x00, 0x00, 0x00, 0x38, 0x01, 0x00, 0x00, 0x78]

  // control characters, space, "&()<>^| and ,;=
  const WIN_SPECIAL: CharTable :=
    [0xff, 0xff, 0xff, 0xff, 0x45, 0x13, 0x00, 0x78, 0x00, 0x00, 0x00, 0x40, 0x00, 0x00, 0x00, 0x10]

  // &()<>^|
  const WIN_META: CharTable :=
    [0x00, 0x00, 0x00, 0x00, 0x40, 0x03, 0x00, 0x50, 0x00, 0x00, 0x00, 0x40, 0x00, 0x00, 0x00, 0x10]

  function Bit(n: nat): (r: nat)
    ensures r > 0
  {
    if n == 0 then 1 else 2 * Bit(n - 1)
  }

  predicate IsSpecialChar(c: char, table: CharTable) {
    c as int < 128 && table[c as int / 8] / Bit(c as int % 8) % 2 == 1
  }

  predicate HasSpecial(arg: string, table: CharTable) {
    exists i :: 0 <= i < |arg| && IsSpecialChar(arg[i], table)
  }

  method HasSpecialChars(arg: string, table: CharTable) returns (r: bool)
    ensures r == HasSpecial(arg, table)
  {
    var x := |arg| - 1;
    while x >= 0
      invariant -1 <= x < |arg|
      invariant forall i :: x < i < |arg| ==> !IsSpecialChar(arg[i], table)
    {
      if IsSpecialChar(arg[x], table) { return true; }
      x := x - 1;
    }
    return false;
  }

  /* ---- POSIX shell ---- */

  function QuotedUnix(arg: string): string {
    if arg == [] then "''"
    else if HasSpecial(arg, UNIX_SPECIAL) then ['\''] + ReplaceChar(arg, '\'', "'\\''") + ['\'']
    else arg
  }

  /** The shell reads the result as one word, the argument. */
  method ShellQuoteUnix(arg: string) returns (ret: string)
    ensures ret == QuotedUnix(arg)
    ensures ShellWords(ret, Gap, "", []) == Some([arg])
  {
    hide ShellWords;
    UnixAlone(arg);
    if arg == [] { return "''"; }
    ret := arg;
    var special := HasSpecialChars(ret, UNIX_SPECIAL);
    if special {
      ret := ReplaceChar(ret, '\'', "'\\''");
      ret := ['\''] + ret;
      ret := ret + ['\''];
    }
  }

  predicate Blank(c: char) {
    c == ' ' || c == '\t'
  }

  // Characters that are not taken literally outside quotes (section 2.2 of the Shell Command
  // Language in POSIX.1-2017), other than blanks and the quoting characters themselves. A newline
  // ends the command.
  predicate Operator(c: char) {
    c in "|&;<>()$`*?[#~\n"
  }

  datatype Mode = Gap | Word | Single | Double

  // The words of a command line; None where a shell would do more than split and unquote.
  function ShellWords(s: string, mode: Mode, cur: string, words: seq<string>): Option<seq<string>>
    decreases |s|
  {
    if s == [] then
      if mode == Gap then Some(words) else if mode == Word then Some(words + [cur]) else None
    else if mode == Single then
      if s[0] == '\'' then ShellWords(s[1..], Word, cur, words) else ShellWords(s[1..], Single, cur + [s[0]], words)
    else if mode == Double then
      if s[0] == '\"' then ShellWords(s[1..], Word, cur, words)
      else if s[0] == '$' || s[0] == '`' then None
      else if s[0] == '\\' && |s| > 1 && s[1] in "$`\"\\" then ShellWords(s[2..], Double, cur + [s[1]], words)
      else if s[0] == '\\' && |s| > 1 && s[1] == '\n' then ShellWords(s[2..], Double, cur, words)
      else ShellWords(s[1..], Double, cur + [s[0]], words)
    else
      var cur := if mode == Gap then "" else cur;
      if Blank(s[0]) then ShellWords(s[1..], Gap, "", if mode == Gap then words else words + [cur])
      else if Operator(s[0]) then None
      else if s[0] == '\'' then ShellWords(s[1..], Single, cur, words)
      else if s[0] == '\"' then ShellWords(s[1..], Double, cur, words)
      else if s[0] == '\\' then
        (if |s| == 1 || s[1] == '\n' then None else ShellWords(s[2..], Word, cur + [s[1]], words))
      else ShellWords(s[1..], Word, cur + [s[0]], words)
  }

  // What the shell does not take literally is in the table.
  lemma UnixTable(c: char)
    requires Blank(c) || Operator(c) || c == '\'' || c == '\"' || c == '\\'
    ensures IsSpecialChar(c, UNIX_SPECIAL)
  {
    BitValues();
  }

  lemma BitValues()
    ensures Bit(0) == 1 && Bit(1) == 2 && Bit(2) == 4 && Bit(3) == 8
    ensures Bit(4) == 16 && Bit(5) == 32 && Bit(6) == 64 && Bit(7) == 128
  {
    assert Bit(4) == 2 * Bit(3);
    assert Bit(6) == 2 * Bit(5);
  }

  lemma CloseQuote(t: string, cur: string, words: seq<string>)
    ensures ShellWords(['\''] + t, Single, cur, words) == ShellWords(t, Word, cur, words)
  {
    assert (['\''] + t)[1..] == t;
  }

  lemma InQuote(c: char, t: string, cur: string, words: seq<string>)
    requires c != '\''
    ensures ShellWords([c] + t, Single, cur, words) == ShellWords(t, Single, cur + [c], words)
  {
    assert ([c] + t)[1..] == t;
  }

  lemma EscapedQuote(t: string, cur: string, words: seq<string>)
    ensures ShellWords(['\\', '\''] + t, Word, cur, words) == ShellWords(t, Word, cur + ['\''], words)
  {
    assert (['\\', '\''] + t)[2..] == t;
  }

  lemma OpenQuote(t: string, mode: Mode, cur: string, words: seq<string>)
    requires mode == Word || (mode == Gap && cur == "")
    ensures ShellWords(['\''] + t, mode, cur, words) == ShellWords(t, Single, cur, words)
  {
    assert (['\''] + t)[1..] == t;
  }

  lemma PlainChar(c: char, t: string, mode: Mode, cur: string, words: seq<string>)
    requires mode == Word || (mode == Gap && cur == "")
    requires !IsSpecialChar(c, UNIX_SPECIAL)
    ensures ShellWords([c] + t, mode, cur, words) == ShellWords(t, Word, cur + [c], words)
  {
    hide IsSpecialChar;
    if Blank(c) || Operator(c) || c == '\'' || c == '\"' || c == '\\' { UnixTable(c); }
    assert ([c] + t)[1..] == t;
  }

  // A blank ends the word, if there is one.
  lemma Space(t: string, mode: Mode, cur: string, words: seq<string>)
    requires mode == Word || mode == Gap
    ensures ShellWords([' '] + t, mode, cur, words)
         == ShellWords(t, Gap, "", if mode == Gap then words else words + [cur])
  {
    assert ([' '] + t)[1..] == t;
  }

  lemma {:induction false} SingleQuoted(arg: string, rest: string, cur: string, words: seq<string>)
    ensures ShellWords(ReplaceChar(arg, '\'', "'\\''") + ['\''] + rest, Single, cur, words)
         == ShellWords(rest, Word, cur + arg, words)
    decreases |arg|
  {
    hide ShellWords;
    var tail := ReplaceChar(arg, '\'', "'\\''") + ['\''] + rest;
    if arg == [] {
      assert tail == ['\''] + rest && cur + arg == cur;
      CloseQuote(rest, cur, words);
    } else {
      var next := ReplaceChar(arg[1..], '\'', "'\\''") + ['\''] + rest;
      SingleQuoted(arg[1..], rest, cur + [arg[0]], words);
      assert cur + [arg[0]] + arg[1..] == cur + arg;
      if arg[0] == '\'' {
        assert tail == ['\''] + (['\\', '\''] + (['\''] + next));
        CloseQuote(['\\', '\''] + (['\''] + next), cur, words);
        EscapedQuote(['\''] + next, cur, words);
        OpenQuote(next, Word, cur + ['\''], words);
      } else {
        assert tail == [arg[0]] + next;
        InQuote(arg[0], next, cur, words);
      }
    }
  }

  lemma {:induction false} PlainWord(arg: string, rest: string, cur: string, words: seq<string>)
    requires forall i :: 0 <= i < |arg| ==> !IsSpecialChar(arg[i], UNIX_SPECIAL)
    ensures ShellWords(arg + rest, Word, cur, words) == ShellWords(rest, Word, cur + arg, words)
    decreases |arg|
  {
    hide ShellWords, IsSpecialChar;
    if arg == [] {
      assert arg + rest == rest && cur + arg == cur;
    } else {
      PlainChar(arg[0], arg[1..] + rest, Word, cur, words);
      PlainWord(arg[1..], rest, cur + [arg[0]], words);
      assert arg + rest == [arg[0]] + (arg[1..] + rest);
      assert cur + [arg[0]] + arg[1..] == cur + arg;
    }
  }

  /** A quoted argument is read back as one word, with nothing left over, in front of any rest. */
  lemma UnixArgument(arg: string, rest: string, words: seq<string>)
    ensures ShellWords(QuotedUnix(arg) + rest, Gap, "", words) == ShellWords(rest, Word, arg, words)
  {
    hide ShellWords, IsSpecialChar;
    var q := QuotedUnix(arg);
    if arg == [] {
      assert q + rest == ['\''] + (['\''] + rest);
      OpenQuote(['\''] + rest, Gap, "", words);
      CloseQuote(rest, "", words);
    } else if HasSpecial(arg, UNIX_SPECIAL) {
      var tail := ReplaceChar(arg, '\'', "'\\''") + ['\''] + rest;
      assert q + rest == ['\''] + tail;
      OpenQuote(tail, Gap, "", words);
      SingleQuoted(arg, rest, "", words);
      assert "" + arg == arg;
    } else {
      PlainChar(arg[0], arg[1..] + rest, Gap, "", words);
      PlainWord(arg[1..], rest, [arg[0]], words);
      assert q + rest == [arg[0]] + (arg[1..] + rest);
      assert "" + [arg[0]] == [arg[0]] && [arg[0]] + arg[1..] == arg;
    }
  }

  lemma UnixAlone(arg: string)
    ensures ShellWords(QuotedUnix(arg), Gap, "", []) == Some([arg])
  {
    hide ShellWords, QuotedUnix;
    UnixArgument(arg, "", []);
    assert QuotedUnix(arg) + "" == QuotedUnix(arg) && [] + [arg] == [arg];
    LastWord(arg, []);
  }

  /* ---- buildArgs ---- */

  function Joined(args: seq<string>, quote: string -> string): string {
    if args == [] then [] else Joined(args[..|args| - 1], quote) + ([' '] + quote(args[|args| - 1]))
  }

  function BuildArgsSpec(args: seq<string>, extra: seq<string>, withExtra: bool, quote: string -> string): string {
    Joined(args, quote) + (if withExtra && extra != [] then " --" + Joined(extra, quote) else "")
  }

  method AppendArgs(ret: string, args: seq<string>) returns (r: string)
    ensures r == ret + Joined(args, QuotedUnix)
  {
    r := ret;
    for i := 0 to |args|
      invariant r == ret + Joined(args[..i], QuotedUnix)
    {
      var quoted := ShellQuoteUnix(args[i]);
      r := r + ([' '] + quoted);
      assert args[..i + 1][..i] == args[..i];
    }
    assert args[..|args|] == args;
  }

  method BuildArgs(args: seq<string>, extra: seq<string>, withExtra: bool) returns (ret: string)
    ensures ret == BuildArgsSpec(args, extra, withExtra, QuotedUnix)
    ensures ShellWords(ret, Gap, "", []) == Some(args + (if withExtra && extra != [] then ["--"] + extra else []))
  {
    hide ShellWords;
    BuildArgsSplit(args, extra, withExtra);
    ret := AppendArgs("", args);
    assert "" + Joined(args, QuotedUnix) == Joined(args, QuotedUnix);
    if withExtra && extra != [] {
      ret := ret + " --";
      ret := AppendArgs(ret, extra);
    }
  }

  // After any words, and inside the last of them.
  lemma {:induction false} JoinedWords(args: seq<string>, rest: string, mode: Mode, cur: string, words: seq<string>)
    requires mode == Gap || mode == Word
    requires args != []
    ensures var before := if mode == Gap then words else words + [cur];
      ShellWords(Joined(args, QuotedUnix) + rest, mode, cur, words)
      == ShellWords(rest, Word, args[|args| - 1], before + args[..|args| - 1])
    decreases |args|
  {
    hide ShellWords, QuotedUnix;
    var n := |args| - 1;
    var before := if mode == Gap then words else words + [cur];
    var tail := [' '] + (QuotedUnix(args[n]) + rest);
    assert Joined(args, QuotedUnix) + rest == Joined(args[..n], QuotedUnix) + tail;
    if n == 0 {
      assert Joined(args[..n], QuotedUnix) + tail == tail;
      Space(QuotedUnix(args[n]) + rest, mode, cur, words);
      UnixArgument(args[n], rest, before);
      assert before + args[..n] == before;
    } else {
      JoinedWords(args[..n], tail, mode, cur, words);
      var w := before + args[..n][..n - 1];
      assert w + [args[n - 1]] == before + args[..n];
      Space(QuotedUnix(args[n]) + rest, Word, args[n - 1], w);
      UnixArgument(args[n], rest, w + [args[n - 1]]);
    }
  }

  lemma Dashes(line: string, words: seq<string>)
    ensures ShellWords("--" + line, Gap, "", words) == ShellWords(line, Word, "--", words)
  {
    hide ShellWords;
    BitValues();
    PlainChar('-', ['-'] + line, Gap, "", words);
    PlainChar('-', line, Word, "-", words);
    assert "--" + line == ['-'] + (['-'] + line);
    assert "" + ['-'] == "-" && "-" + ['-'] == "--";
  }

  lemma LastWord(cur: string, words: seq<string>)
    ensures ShellWords("", Word, cur, words) == Some(words + [cur])
  {
  }

  lemma NoWord(words: seq<string>)
    ensures ShellWords("", Gap, "", words) == Some(words)
  {
  }

  // Where the splitting stands after the given words, with or without a rest behind a blank.
  lemma SomeArgs(args: seq<string>, rest: string)
    requires rest == "" || rest[0] == ' '
    ensures ShellWords(Joined(args, QuotedUnix) + rest, Gap, "", [])
         == if rest == "" then Some(args) else ShellWords(rest[1..], Gap, "", args)
  {
    hide ShellWords, QuotedUnix;
    if args == [] {
      assert Joined(args, QuotedUnix) + rest == rest;
      NoWord(args);
      if rest != "" { Space(rest[1..], Gap, "", []); assert rest == [' '] + rest[1..]; }
    } else {
      var n := |args| - 1;
      JoinedWords(args, rest, Gap, "", []);
      assert [] + args[..n] == args[..n] && args[..n] + [args[n]] == args;
      LastWord(args[n], args[..n]);
      if rest != "" { Space(rest[1..], Word, args[n], args[..n]); assert rest == [' '] + rest[1..]; }
    }
  }

  lemma ExtraArgs(args: seq<string>, extra: seq<string>)
    requires extra != []
    ensures ShellWords("--" + Joined(extra, QuotedUnix), Gap, "", args) == Some(args + (["--"] + extra))
  {
    hide ShellWords, QuotedUnix, Joined;
    var n := |extra| - 1;
    var line := Joined(extra, QuotedUnix);
    Dashes(line, args);
    JoinedWords(extra, "", Word, "--", args);
    assert line + "" == line;
    var before := args + ["--"] + extra[..n];
    LastWord(extra[n], before);
    assert before + [extra[n]] == args + (["--"] + extra);
  }

  /** Splitting the command line of buildArgs() gives back the argument list. */
  lemma BuildArgsSplit(args: seq<string>, extra: seq<string>, withExtra: bool)
    ensures ShellWords(BuildArgsSpec(args, extra, withExtra, QuotedUnix), Gap, "", [])
         == Some(args + (if withExtra && extra != [] then ["--"] + extra else []))
  {
    hide ShellWords, QuotedUnix, Joined;
    var line := Joined(extra, QuotedUnix);
    var first := Joined(args, QuotedUnix);
    if withExtra && extra != [] {
      var tail := " --" + line;
      assert tail[1..] == "--" + line;
      SomeArgs(args, tail);
      ExtraArgs(args, extra);
      assert BuildArgsSpec(args, extra, withExtra, QuotedUnix) == first + tail;
    } else {
      SomeArgs(args, "");
      assert BuildArgsSpec(args, extra, withExtra, QuotedUnix) == first + "";
      assert args + [] == args;
    }
  }

  /* ---- cmd.exe and the argv rules of the Microsoft C runtime ---- */

  function Backslashes(n: nat): string {
    seq(n, i => '\\')
  }

  // QString::replace of (\\*)" by \1\1\": n backslashes stand in front of s.
  function EscapeQuotes(s: string, n: nat): string
    decreases |s|
  {
    if s == [] then Backslashes(n)
    else if s[0] == '\\' then EscapeQuotes(s[1..], n + 1)
    else if s[0] == '\"' then Backslashes(2 * n) + ['\\', '\"'] + EscapeQuotes(s[1..], 0)
    else Backslashes(n) + [s[0]] + EscapeQuotes(s[1..], 0)
  }

  // The run of backslashes at the end.
  function Trailing(s: string): (n: nat)
    ensures n <= |s|
  {
    if s == [] || s[|s| - 1] != '\\' then 0 else Trailing(s[..|s| - 1]) + 1
  }

  // QString::replace of (\\+)$ by \1\1; $ also matches in front of a line end that ends the text.
  function DoubleTrailing(s: string): string {
    if EndsLine(s) then Doubled(s[..|s| - 1]) + "\n" else Doubled(s)
  }

  predicate EndsLine(s: string) {
    s != [] && s[|s| - 1] == '\n'
  }

  function Doubled(s: string): string {
    s + Backslashes(Trailing(s))
  }

  // A quote toggles the quoting; outside, a caret goes in front of every meta character.
  function Careted(s: string, quoted: bool): string {
    if s == [] then []
    else if s[0] == '\"' then [s[0]] + Careted(s[1..], !quoted)
    else (if !quoted && IsSpecialChar(s[0], WIN_META) then ['^', s[0]] else [s[0]]) + Careted(s[1..], quoted)
  }

  function QuotedAfter(s: string, quoted: bool): bool {
    if s == [] then quoted else QuotedAfter(s[1..], if s[0] == '\"' then !quoted else quoted)
  }

  function Enclosed(escaped: string): string {
    ['\"'] + Careted(escaped, true) + (if QuotedAfter(escaped, true) then "" else "^") + ['\"']
  }

  function QuotedWin(arg: string): string {
    if arg == [] then "\"\""
    else if HasSpecial(arg, WIN_SPECIAL) then Enclosed(DoubleTrailing(EscapeQuotes(arg, 0)))
    else arg
  }

  function CaretStart(c: char, quoted: bool): string {
    if c != '\"' && !quoted && IsSpecialChar(c, WIN_META) then ['^', c] else [c]
  }

  lemma CaretStep(c: char, rest: string, quoted: bool)
    ensures var q := if c == '\"' then !quoted else quoted;
      Careted([c] + rest, quoted) == CaretStart(c, quoted) + Careted(rest, q)
      && QuotedAfter([c] + rest, quoted) == QuotedAfter(rest, q)
  {
    assert ([c] + rest)[1..] == rest;
  }

  method InsertCarets(s: string) returns (ret: string, quoted: bool)
    ensures ret == Careted(s, true) && quoted == QuotedAfter(s, true)
  {
    ret, quoted := s, true;
    var i := 0;
    assert ret[..0] == [] && ret[0..] == s;
    assert [] + Careted(s, true) == Careted(s, true);
    while i < |ret|
      invariant 0 <= i <= |ret|
      invariant ret[..i] + Careted(ret[i..], quoted) == Careted(s, true)
      invariant QuotedAfter(ret[i..], quoted) == QuotedAfter(s, true)
      decreases |ret| - i
    {
      hide Careted, QuotedAfter, IsSpecialChar;
      var c := ret[i];
      ghost var before, rest, was := ret[..i], ret[i + 1..], quoted;
      assert ret[i..] == [c] + rest;
      CaretStep(c, rest, was);
      if c == '\"' {
        quoted := !quoted;
      } else if !quoted && IsSpecialChar(c, WIN_META) {
        ret := ret[..i] + ['^'] + ret[i..];
        i := i + 1;
      }
      i := i + 1;
      Regroup(before, CaretStart(c, was), Careted(rest, quoted));
      assert ret[..i] == before + CaretStart(c, was);
      assert ret[i..] == rest;
    }
    assert ret[..i] == ret && ret[i..] == [];
    assert ret + [] == ret;
  }

  /** cmd.exe and the argv rules make the argument of the result, unless it holds a newline. */
  method ShellQuoteWin(arg: string) returns (ret: string)
    ensures ret == QuotedWin(arg)
    ensures '\n' !in arg ==> ReadByWindows(ret) == Some([arg])
  {
    hide ReadByWindows;
    if '\n' !in arg { WinArgumentRoundTrip(arg); }
    if arg == [] { return "\"\""; }
    ret := arg;
    var special := HasSpecialChars(ret, WIN_SPECIAL);
    if special {
      ret := EscapeQuotes(ret, 0);
      ret := DoubleTrailing(ret);
      var quoted;
      ret, quoted := InsertCarets(ret);
      if !quoted { ret := ret + ['^']; }
      ret := ret + ['\"'];
      ret := ['\"'] + ret;
    }
  }

  // The command processor: toggles at quotes, removes carets outside quotes, and passes the rest on;
  // None where it would act on a meta character. The second value tells if it ends inside quotes.
  function CmdLine(s: string, quoted: bool, out: string): Option<(string, bool)>
    decreases |s|
  {
    if s == [] then Some((out, quoted))
    else if s[0] == '\"' then CmdLine(s[1..], !quoted, out + [s[0]])
    else if quoted then CmdLine(s[1..], quoted, out + [s[0]])
    else if s[0] == '^' then (if |s| == 1 then None else CmdLine(s[2..], quoted, out + [s[1]]))
    else if s[0] in "&()<>|" then None
    else CmdLine(s[1..], quoted, out + [s[0]])
  }

  // The argument vector: 2n backslashes and a quote are n backslashes and a delimiter, 2n + 1 are n
  // backslashes and a quote, and other backslashes are themselves.
  function Argv(s: string, inWord: bool, inQuotes: bool, n: nat, cur: string, args: seq<string>): seq<string>
    decreases |s|
  {
    if s == [] then (if inWord then args + [cur + Backslashes(n)] else args)
    else if s[0] == '\\' then Argv(s[1..], true, inQuotes, n + 1, cur, args)
    else if s[0] == '\"' then
      if n % 2 == 1 then Argv(s[1..], true, inQuotes, 0, cur + Backslashes(n / 2) + ['\"'], args)
      else if inQuotes && |s| > 1 && s[1] == '\"' then
        Argv(s[2..], true, inQuotes, 0, cur + Backslashes(n / 2) + ['\"'], args)
      else Argv(s[1..], true, !inQuotes, 0, cur + Backslashes(n / 2), args)
    else if (s[0] == ' ' || s[0] == '\t') && !inQuotes then
      Argv(s[1..], false, false, 0, "", if inWord then args + [cur + Backslashes(n)] else args)
    else Argv(s[1..], true, inQuotes, 0, cur + Backslashes(n) + [s[0]], args)
  }

  lemma WinTables(c: char)
    ensures c == '^' || c in "&()<>|" ==> IsSpecialChar(c, WIN_META)
    ensures c == '^' || c in "&()<>|" || c == '\"' || c == ' ' || c == '\t' ==> IsSpecialChar(c, WIN_SPECIAL)
  {
    BitValues();
  }

  // Doubling the backslashes in front of quotes and at the end, in one pass.
  function Escaped(s: string, n: nat): string
    decreases |s|
  {
    if s == [] then Backslashes(2 * n)
    else if s[0] == '\\' then Escaped(s[1..], n + 1)
    else if s[0] == '\"' then Backslashes(2 * n) + ['\\', '\"'] + Escaped(s[1..], 0)
    else Backslashes(n) + [s[0]] + Escaped(s[1..], 0)
  }

  lemma {:induction false} TrailingRun(a: string, n: nat)
    requires a == [] || a[|a| - 1] != '\\'
    ensures Trailing(a + Backslashes(n)) == n
    decreases n
  {
    if n == 0 {
      assert a + Backslashes(0) == a;
    } else {
      var s := a + Backslashes(n);
      assert s[..|s| - 1] == a + Backslashes(n - 1);
      TrailingRun(a, n - 1);
    }
  }

  lemma EscapedEnd(a: string, n: nat)
    requires a == [] || a[|a| - 1] != '\\'
    ensures Doubled(a + EscapeQuotes([], n)) == a + Escaped([], n)
  {
    hide Trailing;
    TrailingRun(a, n);
    var t := a + Backslashes(n);
    assert t + Backslashes(n) == a + Backslashes(2 * n);
  }

  lemma {:induction false} EscapedIs(a: string, s: string, n: nat)
    requires a == [] || a[|a| - 1] != '\\'
    ensures Doubled(a + EscapeQuotes(s, n)) == a + Escaped(s, n)
    decreases |s|
  {
    hide Doubled, Trailing, Backslashes;
    if s == [] {
      EscapedEnd(a, n);
    } else if s[0] == '\\' {
      EscapedIs(a, s[1..], n + 1);
    } else {
      var step := if s[0] == '\"' then Backslashes(2 * n) + ['\\', '\"'] else Backslashes(n) + [s[0]];
      var next := a + step;
      assert next[|next| - 1] == s[0];
      EscapedIs(next, s[1..], 0);
      assert a + (step + EscapeQuotes(s[1..], 0)) == next + EscapeQuotes(s[1..], 0);
      assert a + (step + Escaped(s[1..], 0)) == next + Escaped(s[1..], 0);
    }
  }

  // One more character behind what is escaped.
  lemma {:induction false} QuotesAppend(s: string, n: nat, c: char)
    requires c != '\"'
    ensures EscapeQuotes(s + [c], n) == EscapeQuotes(s, n) + [c]
    decreases |s|
  {
    if s == [] {
      assert s + [c] == [c];
      assert EscapeQuotes([c][1..], n + 1) == Backslashes(n) + ['\\'] && EscapeQuotes([c][1..], 0) == [];
    } else {
      assert (s + [c])[0] == s[0] && (s + [c])[1..] == s[1..] + [c];
      QuotesAppend(s[1..], if s[0] == '\\' then n + 1 else 0, c);
    }
  }

  lemma {:induction false} QuotesBackslashes(s: string, k: nat)
    ensures EscapeQuotes(s + Backslashes(k), 0) == EscapeQuotes(s, 0) + Backslashes(k)
    decreases k
  {
    if k == 0 {
      assert s + Backslashes(0) == s && EscapeQuotes(s, 0) + Backslashes(0) == EscapeQuotes(s, 0);
    } else {
      QuotesBackslashes(s, k - 1);
      QuotesAppend(s + Backslashes(k - 1), 0, '\\');
      assert s + Backslashes(k) == s + Backslashes(k - 1) + ['\\'];
      assert Backslashes(k) == Backslashes(k - 1) + ['\\'];
    }
  }

  lemma {:induction false} TrailingTail(a: string, s: string)
    requires a != [] && a[|a| - 1] != '\\'
    ensures Trailing(a + s) == Trailing(s)
    decreases |s|
  {
    if s == [] {
      assert a + s == a;
    } else {
      assert (a + s)[|a + s| - 1] == s[|s| - 1] && (a + s)[..|a + s| - 1] == a + s[..|s| - 1];
      TrailingTail(a, s[..|s| - 1]);
    }
  }

  lemma NoBackslashes()
    ensures Backslashes(0) == ""
  {
  }

  // What doubling adds is the run of backslashes at the end.
  lemma {:induction false} EscapedAdds(s: string, n: nat)
    ensures Escaped(s, n) == EscapeQuotes(s, n) + Backslashes(Trailing(Backslashes(n) + s))
    decreases |s|
  {
    hide Trailing;
    if s == [] {
      TrailingRun([], n);
      assert [] + Backslashes(n) == Backslashes(n) == Backslashes(n) + s;
    } else if s[0] == '\\' {
      EscapedAdds(s[1..], n + 1);
      assert Backslashes(n + 1) + s[1..] == Backslashes(n) + s;
    } else {
      hide Backslashes;
      assert Backslashes(0) == "" by { NoBackslashes(); }
      EscapedAdds(s[1..], 0);
      TrailingTail(Backslashes(n) + [s[0]], s[1..]);
      assert Backslashes(n) + [s[0]] + s[1..] == Backslashes(n) + s && Backslashes(0) + s[1..] == s[1..];
    }
  }

  // The argument whose escaped form the quoter makes: backslashes in front of a line end at the end
  // are doubled, although no quote follows them.
  function Kept(arg: string): string {
    if EndsLine(arg) then Doubled(arg[..|arg| - 1]) + "\n" else arg
  }

  lemma EndsAlike(arg: string)
    ensures EndsLine(EscapeQuotes(arg, 0)) <==> EndsLine(arg)
    ensures EndsLine(arg) ==> EscapeQuotes(arg, 0) == EscapeQuotes(arg[..|arg| - 1], 0) + "\n"
  {
    if arg == [] {
      assert EscapeQuotes(arg, 0) == [];
    } else {
      hide EscapeQuotes;
      var y, last := arg[..|arg| - 1], arg[|arg| - 1];
      assert arg == y + [last];
      if last == '\"' { QuoteLast(y, 0); } else { QuotesAppend(y, 0, last); }
    }
  }

  lemma {:induction false} QuoteLast(s: string, n: nat)
    ensures var e := EscapeQuotes(s + ['\"'], n); e != [] && e[|e| - 1] == '\"'
    decreases |s|
  {
    if s == [] {
      assert (s + ['\"'])[1..] == [];
    } else {
      assert (s + ['\"'])[0] == s[0] && (s + ['\"'])[1..] == s[1..] + ['\"'];
      QuoteLast(s[1..], if s[0] == '\\' then n + 1 else 0);
    }
  }

  lemma EscapedWhole(arg: string)
    ensures DoubleTrailing(EscapeQuotes(arg, 0)) == Escaped(Kept(arg), 0)
  {
    hide Trailing, Escaped, EscapeQuotes, Backslashes;
    EndsAlike(arg);
    if EndsLine(arg) {
      var y, kept := arg[..|arg| - 1], Kept(arg);
      LineEscaped(y);
      EscapedIs("", y, 0);
      assert "" + EscapeQuotes(y, 0) == EscapeQuotes(y, 0) && "" + Escaped(y, 0) == Escaped(y, 0);
      assert (EscapeQuotes(y, 0) + "\n")[..|EscapeQuotes(y, 0)|] == EscapeQuotes(y, 0);
    } else {
      EscapedIs("", arg, 0);
      assert "" + EscapeQuotes(arg, 0) == EscapeQuotes(arg, 0) && "" + Escaped(arg, 0) == Escaped(arg, 0);
    }
  }

  lemma LineEscaped(y: string)
    ensures Escaped(Doubled(y) + "\n", 0) == Escaped(y, 0) + "\n"
  {
    hide Escaped, EscapeQuotes;
    var k := Trailing(y);
    var z := Doubled(y) + "\n";
    assert Backslashes(0) + y == y && Backslashes(0) + z == z;
    EscapedAdds(y, 0);
    EscapedAdds(z, 0);
    QuotesBackslashes(y, k);
    QuotesAppend(Doubled(y), 0, '\n');
    assert Trailing(z) == 0 && Backslashes(0) == "";
  }

  lemma {:induction false} CmdCareted(s: string, quoted: bool, rest: string, out: string)
    ensures CmdLine(Careted(s, quoted) + rest, quoted, out) == CmdLine(rest, QuotedAfter(s, quoted), out + s)
    decreases |s|
  {
    hide CmdLine, Careted, QuotedAfter, IsSpecialChar;
    if s == [] {
      CaretNone(quoted);
      assert [] + rest == rest && out + s == out;
    } else {
      var c, t := s[0], s[1..];
      assert s == [c] + t;
      CaretStep(c, t, quoted);
      var q := if c == '\"' then !quoted else quoted;
      CmdStep(c, quoted, Careted(t, q) + rest, out);
      CmdCareted(t, q, rest, out + [c]);
      Regroup(CaretStart(c, quoted), Careted(t, q), rest);
      assert out + [c] + t == out + s;
    }
  }

  lemma CaretNone(quoted: bool)
    ensures Careted([], quoted) == [] && QuotedAfter([], quoted) == quoted
  {
  }

  lemma CmdStep(c: char, quoted: bool, t: string, out: string)
    ensures CmdLine(CaretStart(c, quoted) + t, quoted, out)
         == CmdLine(t, if c == '\"' then !quoted else quoted, out + [c])
  {
    hide IsSpecialChar;
    WinTables(c);
    var s := CaretStart(c, quoted) + t;
    if |CaretStart(c, quoted)| == 2 { assert s[2..] == t; } else { assert s[1..] == t; }
  }

  // What the called program gets to see of a quoted argument.
  function Passed(arg: string): string {
    if arg == [] then "\"\""
    else if HasSpecial(arg, WIN_SPECIAL) then ['\"'] + Escaped(arg, 0) + ['\"']
    else arg
  }

  lemma AsItIs(arg: string)
    requires arg != [] && !HasSpecial(arg, WIN_SPECIAL)
    ensures QuotedWin(arg) == arg && Passed(arg) == arg
  {
  }

  lemma CmdEmpty(rest: string, out: string)
    ensures CmdLine(QuotedWin("") + rest, false, out) == CmdLine(rest, false, out + Passed(""))
  {
    hide CmdLine;
    CmdQuote(['\"'] + rest, false, out);
    CmdQuote(rest, true, out + ['\"']);
    assert QuotedWin("") + rest == ['\"'] + (['\"'] + rest);
    assert out + ['\"'] + ['\"'] == out + Passed("");
  }

  lemma CmdEnclosed(e: string, rest: string, out: string)
    ensures CmdLine(Enclosed(e) + rest, false, out) == CmdLine(rest, false, out + (['\"'] + e + ['\"']))
  {
    hide CmdLine, Careted, QuotedAfter;
    var carets, inside := Careted(e, true), QuotedAfter(e, true);
    var caret := if inside then "" else "^";
    AllFive(['\"'], carets, caret, ['\"'], rest);
    CmdQuote(carets + (caret + ['\"'] + rest), false, out);
    CmdCareted(e, true, caret + ['\"'] + rest, out + ['\"']);
    CmdEnd(inside, rest, out + ['\"'] + e);
    AllFive(out, ['\"'], e, ['\"'], "");
  }

  lemma AllFive(a: string, b: string, c: string, d: string, e: string)
    ensures a + b + c + d + e == a + (b + (c + d + e))
    ensures a + (b + c + d) == a + b + c + d
  {
  }

  lemma CmdSpecial(arg: string, rest: string, out: string)
    requires '\n' !in arg && arg != [] && HasSpecial(arg, WIN_SPECIAL)
    ensures CmdLine(QuotedWin(arg) + rest, false, out) == CmdLine(rest, false, out + Passed(arg))
  {
    hide CmdLine, HasSpecial, Careted, QuotedAfter, EscapeQuotes, Escaped, DoubleTrailing, Enclosed;
    var e := Escaped(arg, 0);
    EscapedWhole(arg);
    CmdEnclosed(e, rest, out);
  }

  // cmd.exe takes the carets out, and is outside quotes before and after the argument.
  lemma CmdArgument(arg: string, rest: string, out: string)
    requires '\n' !in arg
    ensures CmdLine(QuotedWin(arg) + rest, false, out) == CmdLine(rest, false, out + Passed(arg))
  {
    hide CmdLine, HasSpecial, QuotedWin, Passed;
    if arg == [] {
      CmdEmpty(rest, out);
    } else if HasSpecial(arg, WIN_SPECIAL) {
      CmdSpecial(arg, rest, out);
    } else {
      CmdPlain(arg, rest, out);
      AsItIs(arg);
    }
  }

  lemma CmdQuote(t: string, quoted: bool, out: string)
    ensures CmdLine(['\"'] + t, quoted, out) == CmdLine(t, !quoted, out + ['\"'])
  {
    assert (['\"'] + t)[1..] == t;
  }

  // Outside quotes the closing quote is escaped, so that it does not open a new quotation.
  lemma CmdEnd(quoted: bool, rest: string, out: string)
    ensures CmdLine((if quoted then "" else "^") + ['\"'] + rest, quoted, out) == CmdLine(rest, false, out + ['\"'])
  {
    var s := (if quoted then "" else "^") + ['\"'] + rest;
    if quoted { assert s[1..] == rest; } else { assert s[2..] == rest; }
  }

  lemma {:induction false} CmdPlain(arg: string, rest: string, out: string)
    requires !HasSpecial(arg, WIN_SPECIAL)
    ensures CmdLine(arg + rest, false, out) == CmdLine(rest, false, out + arg)
    decreases |arg|
  {
    hide IsSpecialChar;
    if arg == [] {
      assert arg + rest == rest && out + arg == out;
    } else {
      WinTables(arg[0]);
      assert !IsSpecialChar(arg[0], WIN_SPECIAL);
      forall i | 0 <= i < |arg[1..]| ensures !IsSpecialChar(arg[1..][i], WIN_SPECIAL) {
        assert arg[1..][i] == arg[i + 1];
      }
      CmdPlain(arg[1..], rest, out + [arg[0]]);
      assert (arg + rest)[1..] == arg[1..] + rest;
      assert out + [arg[0]] + arg[1..] == out + arg;
    }
  }

  lemma {:induction false} ArgvBackslashes(k: nat, t: string, inWord: bool, inQuotes: bool, n: nat, cur: string,
                                           args: seq<string>)
    ensures Argv(Backslashes(k) + t, inWord, inQuotes, n, cur, args)
      == Argv(t, inWord || k > 0, inQuotes, n + k, cur, args)
    decreases k
  {
    if k == 0 {
      assert Backslashes(0) + t == t;
    } else {
      assert Backslashes(k) + t == ['\\'] + (Backslashes(k - 1) + t);
      assert (Backslashes(k) + t)[1..] == Backslashes(k - 1) + t;
      ArgvBackslashes(k - 1, t, true, inQuotes, n + 1, cur, args);
    }
  }

  // The closing quote must not be followed by another one.
  predicate Separate(rest: string) {
    rest == "" || rest[0] != '\"'
  }

  lemma ArgvQuote(rest: string, inWord: bool, inQuotes: bool, n: nat, cur: string, args: seq<string>)
    requires inQuotes ==> Separate(rest) || n % 2 == 1
    ensures Argv(['\"'] + rest, inWord, inQuotes, n, cur, args)
         == if n % 2 == 1 then Argv(rest, true, inQuotes, 0, cur + Backslashes(n / 2) + ['\"'], args)
            else Argv(rest, true, !inQuotes, 0, cur + Backslashes(n / 2), args)
  {
    assert (['\"'] + rest)[1..] == rest;
  }

  lemma ArgvInside(c: char, rest: string, n: nat, cur: string, args: seq<string>)
    requires c != '\"' && c != '\\'
    ensures Argv([c] + rest, true, true, n, cur, args) == Argv(rest, true, true, 0, cur + Backslashes(n) + [c], args)
  {
    assert ([c] + rest)[1..] == rest;
  }

  lemma EscapedStep(s: string, n: nat)
    ensures Escaped(s, n)
         == if s == [] then Backslashes(2 * n)
            else if s[0] == '\\' then Escaped(s[1..], n + 1)
            else if s[0] == '\"' then Backslashes(2 * n + 1) + (['\"'] + Escaped(s[1..], 0))
            else Backslashes(n) + ([s[0]] + Escaped(s[1..], 0))
    ensures s != [] ==> s == [s[0]] + s[1..]
    ensures Backslashes(0) == "" && Backslashes(n + 1) == Backslashes(n) + ['\\']
  {
    if s != [] && s[0] == '\"' {
      var rest := Escaped(s[1..], 0);
      assert Backslashes(2 * n) + ['\\', '\"'] + rest == Backslashes(2 * n + 1) + (['\"'] + rest);
    }
  }

  lemma {:induction false} ArgvEscaped(s: string, n: nat, rest: string, cur: string, args: seq<string>)
    requires Separate(rest)
    ensures Argv(Escaped(s, n) + (['\"'] + rest), true, true, 0, cur, args)
         == Argv(rest, true, false, 0, cur + Backslashes(n) + s, args)
    decreases |s|
  {
    hide Argv, Separate, Escaped, Backslashes;
    EscapedStep(s, n);
    var end := ['\"'] + rest;
    if s == [] {
      ArgvBackslashes(2 * n, end, true, true, 0, cur, args);
      ArgvQuote(rest, true, true, 2 * n, cur, args);
      assert cur + Backslashes(n) + s == cur + Backslashes(n);
    } else if s[0] == '\\' {
      ArgvEscaped(s[1..], n + 1, rest, cur, args);
      assert cur + Backslashes(n + 1) + s[1..] == cur + Backslashes(n) + s;
    } else {
      var quote := s[0] == '\"';
      var k, more := if quote then 2 * n + 1 else n, Escaped(s[1..], 0);
      assert Backslashes(k) + ([s[0]] + more) + end == Backslashes(k) + ([s[0]] + (more + end));
      ArgvBackslashes(k, [s[0]] + (more + end), true, true, 0, cur, args);
      if quote { ArgvQuote(more + end, true, true, k, cur, args); } else { ArgvInside(s[0], more + end, n, cur, args); }
      var next := cur + Backslashes(n) + [s[0]];
      ArgvEscaped(s[1..], 0, rest, next, args);
      assert next + Backslashes(0) + s[1..] == cur + Backslashes(n) + s;
    }
  }

  lemma {:induction false} ArgvPlain(arg: string, rest: string, inWord: bool, n: nat, cur: string, args: seq<string>)
    requires !HasSpecial(arg, WIN_SPECIAL) && (inWord || arg != "")
    requires rest == "" || rest[0] == ' '
    ensures Argv(arg + rest, inWord, false, n, cur, args) == AfterWord(rest, cur + Backslashes(n) + arg, args)
    decreases |arg|
  {
    hide IsSpecialChar;
    if arg == [] {
      assert arg + rest == rest;
      assert cur + Backslashes(n) + arg == cur + Backslashes(n);
    } else {
      WinTables(arg[0]);
      assert !IsSpecialChar(arg[0], WIN_SPECIAL);
      forall i | 0 <= i < |arg[1..]| ensures !IsSpecialChar(arg[1..][i], WIN_SPECIAL) {
        assert arg[1..][i] == arg[i + 1];
      }
      assert (arg + rest)[1..] == arg[1..] + rest;
      if arg[0] == '\\' {
        ArgvPlain(arg[1..], rest, true, n + 1, cur, args);
        assert cur + Backslashes(n + 1) + arg[1..] == cur + Backslashes(n) + arg;
      } else {
        var next := cur + Backslashes(n) + [arg[0]];
        ArgvPlain(arg[1..], rest, true, 0, next, args);
        assert next + Backslashes(0) + arg[1..] == cur + Backslashes(n) + arg;
      }
    }
  }

  // A finished word in front of the end or of a blank.
  function AfterWord(rest: string, word: string, args: seq<string>): seq<string> {
    if rest == "" then args + [word] else Argv(rest[1..], false, false, 0, "", args + [word])
  }

  lemma ArgvWordEnd(rest: string, n: nat, cur: string, args: seq<string>)
    requires rest == "" || rest[0] == ' '
    ensures Argv(rest, true, false, n, cur, args) == AfterWord(rest, cur + Backslashes(n), args)
  {
  }

  /** The called program sees exactly the argument, in front of the end or of the next argument. */
  lemma ArgvArgument(arg: string, rest: string, args: seq<string>)
    requires rest == "" || rest[0] == ' '
    ensures Argv(Passed(arg) + rest, false, false, 0, "", args) == AfterWord(rest, arg, args)
  {
    hide IsSpecialChar, Escaped, Argv, AfterWord;
    assert Backslashes(0) == "";
    if arg == [] {
      assert Passed(arg) + rest == ['\"'] + (['\"'] + rest);
      ArgvQuote(['\"'] + rest, false, false, 0, "", args);
      ArgvQuote(rest, true, true, 0, "", args);
      assert "" + Backslashes(0) == "";
      ArgvWordEnd(rest, 0, "", args);
    } else if HasSpecial(arg, WIN_SPECIAL) {
      assert Passed(arg) + rest == ['\"'] + (Escaped(arg, 0) + (['\"'] + rest));
      ArgvQuote(Escaped(arg, 0) + (['\"'] + rest), false, false, 0, "", args);
      ArgvEscaped(arg, 0, rest, "", args);
      assert "" + Backslashes(0) + arg == arg && arg + Backslashes(0) == arg;
      ArgvWordEnd(rest, 0, arg, args);
    } else {
      ArgvPlain(arg, rest, false, 0, "", args);
      assert "" + Backslashes(0) + arg == arg;
    }
  }

  /* ---- round trip through both ---- */

  lemma {:induction false} CmdJoined(args: seq<string>)
    requires forall i :: 0 <= i < |args| ==> '\n' !in args[i]
    ensures CmdLine(Joined(args, QuotedWin), false, "") == Some((Joined(args, Passed), false))
  {
    CmdJoinedRest(args, "");
    assert Joined(args, QuotedWin) + "" == Joined(args, QuotedWin);
  }

  lemma {:induction false} CmdJoinedRest(args: seq<string>, rest: string)
    requires forall i :: 0 <= i < |args| ==> '\n' !in args[i]
    ensures CmdLine(Joined(args, QuotedWin) + rest, false, "") == CmdLine(rest, false, Joined(args, Passed))
    decreases |args|
  {
    hide CmdLine, QuotedWin, Passed;
    if args == [] {
      assert Joined(args, QuotedWin) + rest == rest;
    } else {
      var n := |args| - 1;
      var tail := [' '] + (QuotedWin(args[n]) + rest);
      assert Joined(args, QuotedWin) + rest == Joined(args[..n], QuotedWin) + tail;
      CmdJoinedRest(args[..n], tail);
      var out := Joined(args[..n], Passed);
      CmdBlank(QuotedWin(args[n]) + rest, out);
      CmdArgument(args[n], rest, out + [' ']);
      assert out + [' '] + Passed(args[n]) == Joined(args, Passed);
    }
  }

  lemma CmdBlank(t: string, out: string)
    ensures CmdLine([' '] + t, false, out) == CmdLine(t, false, out + [' '])
  {
    assert ([' '] + t)[1..] == t;
  }

  lemma {:induction false} ArgvJoined(args: seq<string>, rest: string)
    requires args != [] && (rest == "" || rest[0] == ' ')
    ensures Argv(Joined(args, Passed) + rest, false, false, 0, "", [])
         == AfterWord(rest, args[|args| - 1], args[..|args| - 1])
    decreases |args|
  {
    hide Argv, Passed;
    var n := |args| - 1;
    var tail := [' '] + (Passed(args[n]) + rest);
    assert Joined(args, Passed) + rest == Joined(args[..n], Passed) + tail;
    assert tail[1..] == Passed(args[n]) + rest;
    if n == 0 {
      assert Joined(args[..n], Passed) + tail == tail;
      ArgvBlank(Passed(args[n]) + rest);
      ArgvArgument(args[n], rest, []);
      assert args[..n] == [];
    } else {
      ArgvJoined(args[..n], tail);
      assert args[..n][..n - 1] + [args[n - 1]] == args[..n];
      ArgvArgument(args[n], rest, args[..n]);
    }
  }

  lemma ArgvBlank(t: string)
    ensures Argv([' '] + t, false, false, 0, "", []) == Argv(t, false, false, 0, "", [])
  {
    assert ([' '] + t)[1..] == t;
  }

  // The arguments that a program gets for a command line; none if cmd.exe acts on a meta character or
  // is left inside quotes.
  function ReadByWindows(line: string): Option<seq<string>> {
    match CmdLine(line, false, "")
    case None => None
    case Some((passed, quoted)) => if quoted then None else Some(Argv(passed, false, false, 0, "", []))
  }

  /** For every list of arguments without newlines, cmd.exe passes the command line on without acting
      on it and ends outside quotes, and the program's argument vector is the list. */
  lemma WinRoundTrip(args: seq<string>)
    requires forall i :: 0 <= i < |args| ==> '\n' !in args[i]
    ensures ReadByWindows(Joined(args, QuotedWin)) == Some(args)
  {
    hide CmdLine, Argv, QuotedWin, Passed, Joined, AfterWord;
    CmdJoined(args);
    var line := Joined(args, Passed);
    if args == [] {
      NoArguments();
    } else {
      ArgvJoined(args, "");
      assert line + "" == line;
      var n := |args| - 1;
      LastArgument(args[n], args[..n]);
      assert args[..n] + [args[n]] == args;
    }
  }

  lemma NoArguments()
    ensures Argv(Joined([], Passed), false, false, 0, "", []) == []
  {
  }

  lemma LastArgument(word: string, args: seq<string>)
    ensures AfterWord("", word, args) == args + [word]
  {
  }

  /** Whatever it holds, the called program would see the argument in what the quoter encloses, iff no
      backslash stands in front of a line end at its end; such backslashes are doubled. */
  lemma ArgvLineEnd(arg: string)
    ensures Argv(['\"'] + DoubleTrailing(EscapeQuotes(arg, 0)) + ['\"'], false, false, 0, "", []) == [Kept(arg)]
    ensures Kept(arg) == arg <==> !(EndsLine(arg) && EndsInBackslash(arg[..|arg| - 1]))
  {
    KeptIff(arg);
    EscapedWhole(arg);
    assert Backslashes(0) == "";
    hide Argv, Escaped, EscapeQuotes, DoubleTrailing, Kept, EndsLine, EndsInBackslash;
    var e := Escaped(Kept(arg), 0);
    assert ['\"'] + e + ['\"'] == ['\"'] + (e + (['\"'] + ""));
    ArgvQuote(e + (['\"'] + ""), false, false, 0, "", []);
    ArgvEscaped(Kept(arg), 0, "", "", []);
    assert "" + Backslashes(0) + Kept(arg) == Kept(arg);
    ArgvWordEnd("", 0, Kept(arg), []);
    assert Kept(arg) + Backslashes(0) == Kept(arg) && [] + [Kept(arg)] == [Kept(arg)];
  }

  lemma KeptIff(arg: string)
    ensures Kept(arg) == arg <==> !(EndsLine(arg) && EndsInBackslash(arg[..|arg| - 1]))
  {
    if EndsLine(arg) {
      var y := arg[..|arg| - 1];
      assert arg == y + "\n";
      assert |Kept(arg)| == |arg| + Trailing(y);
    }
  }

  predicate EndsInBackslash(s: string) {
    s != [] && s[|s| - 1] == '\\'
  }

  // One argument on its own, as the quoter is called.
  lemma WinArgumentRoundTrip(arg: string)
    requires '\n' !in arg
    ensures CmdLine(QuotedWin(arg), false, "") == Some((Passed(arg), false))
    ensures ReadByWindows(QuotedWin(arg)) == Some([arg])
  {
    hide CmdLine, QuotedWin, Passed, Argv;
    CmdArgument(arg, "", "");
    assert QuotedWin(arg) + "" == QuotedWin(arg) && "" + Passed(arg) == Passed(arg);
    CmdNothing("" + Passed(arg));
    ArgvArgument(arg, "", []);
    assert Passed(arg) + "" == Passed(arg) && [] + [arg] == [arg];
    assert Argv(Passed(arg), false, false, 0, "", []) == [arg];
  }

  lemma CmdNothing(out: string)
    ensures CmdLine("", false, out) == Some((out, false))
  {
  }
}
