/** The command line engine/src/exec/git_process_win.cpp builds for a child
    process, against the rules CommandLineToArgvW splits one by. */
module CommandLine {

  // ----- splitting ----------------------------------------------------------

  predicate IsBlank(c: char) {
    c == ' ' || c == '\t'
  }

  function Slashes(n: nat): string {
    seq(n, i => '\\')
  }

  // One argument and the rest, given the backslashes just read: 2n of them
  // before a quote are n and the quote opens or closes, 2n + 1 are n and the
  // quote is itself, and before anything else they are themselves.
  function Arg(s: string, quoted: bool, slashes: nat): (r: (string, string))
    ensures |r.1| <= |s|
    ensures s != "" && (quoted || !IsBlank(s[0])) ==> |r.1| < |s|
    decreases |s|
  {
    if s == "" then (Slashes(slashes), "")
    else if s[0] == '\\' then Arg(s[1..], quoted, slashes + 1)
    else if s[0] == '"' then
      var (arg, rest) := Arg(s[1..], if slashes % 2 == 0 then !quoted else quoted, 0);
      (Slashes(slashes / 2) + ((if slashes % 2 == 0 then "" else "\"") + arg), rest)
    else if IsBlank(s[0]) && !quoted then (Slashes(slashes), s)
    else
      var (arg, rest) := Arg(s[1..], quoted, 0);
      (Slashes(slashes) + ([s[0]] + arg), rest)
  }

  function Args(s: string): seq<string>
    decreases |s|
  {
    if s == "" then []
    else if IsBlank(s[0]) then Args(s[1..])
    else
      var (arg, rest) := Arg(s, false, 0);
      [arg] + Args(rest)
  }

  // The program's name: up to the next quote when quoted, else up to a blank;
  // backslashes are only themselves.
  function Until(s: string, stop: char -> bool): nat {
    if s == "" || stop(s[0]) then 0 else 1 + Until(s[1..], stop)
  }

  lemma {:induction false} UntilBound(s: string, stop: char -> bool)
    ensures Until(s, stop) <= |s|
    ensures forall i :: 0 <= i < Until(s, stop) ==> !stop(s[i])
    ensures Until(s, stop) < |s| ==> stop(s[Until(s, stop)])
  {
    if s != "" && !stop(s[0]) {
      UntilBound(s[1..], stop);
    }
  }

  function ArgvOf(line: string): seq<string> {
    if line != "" && line[0] == '"' then
      var n := Until(line[1..], c => c == '"');
      UntilBound(line[1..], c => c == '"');
      [line[1..][..n]] + Args(if n < |line| - 1 then line[1..][n + 1..] else "")
    else
      var n := Until(line, IsBlank);
      UntilBound(line, IsBlank);
      [line[..n]] + Args(line[n..])
  }

  // ----- building -----------------------------------------------------------

  predicate Special(c: char) {
    c == ' ' || c == '\t' || c == '\n' || c == 11 as char || c == '"'
  }

  predicate IsPlain(arg: string) {
    arg != "" && forall i :: 0 <= i < |arg| ==> !Special(arg[i])
  }

  // What follows the opening quote, with that many backslashes held back.
  function Escaped(arg: string, slashes: nat): string {
    if arg == "" then Slashes(slashes * 2) + "\""
    else if arg[0] == '\\' then Escaped(arg[1..], slashes + 1)
    else if arg[0] == '"' then Slashes(slashes * 2 + 1) + ("\"" + Escaped(arg[1..], 0))
    else Slashes(slashes) + ([arg[0]] + Escaped(arg[1..], 0))
  }

  function Quoted(arg: string): string {
    if IsPlain(arg) then arg else "\"" + Escaped(arg, 0)
  }

  lemma Joins(a: string, b: string, c: string, d: string)
    ensures a + (b + (c + d)) == a + b + c + d && a + (b + c) == a + b + c
  {
  }

  lemma EscapeChar(next: string, arg: string, slashes: nat)
    requires arg != ""
    ensures arg[0] == '\\' ==> Escaped(arg, slashes) == Escaped(arg[1..], slashes + 1)
    ensures arg[0] == '"' ==> next + Escaped(arg, slashes) == next + Slashes(slashes * 2 + 1) + "\"" + Escaped(arg[1..], 0)
    ensures arg[0] != '\\' && arg[0] != '"' ==>
      next + Escaped(arg, slashes) == next + Slashes(slashes) + [arg[0]] + Escaped(arg[1..], 0)
  {
    Joins(next, Slashes(slashes * 2 + 1), "\"", Escaped(arg[1..], 0));
    Joins(next, Slashes(slashes), [arg[0]], Escaped(arg[1..], 0));
  }

  method AppendQuotedArg(commandLine: string, arg: string) returns (next: string)
    ensures next == commandLine + Quoted(arg)
    // as it is, unless it is empty or holds a blank, a line or a quote
    ensures var bare := arg != "" && forall i :: 0 <= i < |arg| ==> arg[i] !in [' ', '\t', '\n', 11 as char, '"'];
      if bare then next == commandLine + arg else |next| > |commandLine| && next[|commandLine|] == '"'
  {
    next := commandLine;
    if arg != "" && forall i :: 0 <= i < |arg| ==> !Special(arg[i]) {
      next := next + arg;
      return;
    }
    assert Quoted(arg) == "\"" + Escaped(arg, 0);
    Joins(commandLine, "\"", Escaped(arg, 0), "");
    next := next + "\"";
    var backslashes := 0;
    assert arg[0..] == arg;
    for i := 0 to |arg|
      invariant backslashes >= 0
      invariant next + Escaped(arg[i..], backslashes) == commandLine + Quoted(arg)
    {
      hide Escaped, Quoted, Slashes;
      EscapeChar(next, arg[i..], backslashes);
      var c := arg[i];
      assert arg[i..][0] == c && arg[i..][1..] == arg[i + 1..];
      if c == '\\' {
        backslashes := backslashes + 1;
        continue;
      }
      if c == '"' {
        next := next + Slashes(backslashes * 2 + 1);
        next := next + "\"";
      } else {
        next := next + Slashes(backslashes);
        next := next + [c];
      }
      backslashes := 0;
    }
    assert arg[|arg|..] == "";
    Joins(next, Slashes(backslashes * 2), "\"", "");
    next := next + Slashes(backslashes * 2);
    next := next + "\"";
  }

  function Spaced(args: seq<string>): string {
    if args == [] then "" else " " + (Quoted(args[0]) + Spaced(args[1..]))
  }

  function Line(args: seq<string>): string {
    if args == [] then "" else Quoted(args[0]) + Spaced(args[1..])
  }

  lemma QuotedIsSomething(arg: string)
    ensures Quoted(arg) != ""
  {
  }

  // What is written before and after one more argument.
  lemma OneSpaced(commandLine: string, args: seq<string>, i: nat)
    requires i < |args|
    ensures commandLine + Spaced(args[i..]) == commandLine + " " + Quoted(args[i]) + Spaced(args[i + 1..])
    ensures i == 0 ==> Line(args) == Quoted(args[0]) + Spaced(args[1..])
    ensures Quoted(args[i]) != ""
  {
    hide Quoted;
    QuotedIsSomething(args[i]);
    assert args[i..][0] == args[i] && args[i..][1..] == args[i + 1..];
    Joins(commandLine, " ", Quoted(args[i]), Spaced(args[i + 1..]));
  }

  method BuildCommandLine(args: seq<string>) returns (commandLine: string)
    ensures commandLine == Line(args)
  {
    commandLine := "";
    for i := 0 to |args|
      invariant i == 0 ==> commandLine == ""
      invariant i > 0 ==> commandLine != "" && commandLine + Spaced(args[i..]) == Line(args)
    {
      hide *;
      OneSpaced(commandLine, args, i);
      if commandLine != "" {
        commandLine := commandLine + " ";
      }
      commandLine := AppendQuotedArg(commandLine, args[i]);
      if i == 0 { assert commandLine == Quoted(args[0]); }
    }
    assert args[|args|..] == [];
  }

  // ----- the two together ---------------------------------------------------

  lemma {:induction false} SlashRun(n: nat, s: string, quoted: bool, slashes: nat)
    ensures Arg(Slashes(n) + s, quoted, slashes) == Arg(s, quoted, slashes + n)
    decreases n
  {
    if n == 0 {
      assert Slashes(n) + s == s;
    } else {
      assert (Slashes(n) + s)[1..] == Slashes(n - 1) + s;
      SlashRun(n - 1, s, quoted, slashes + 1);
    }
  }

  lemma MoreSlashes(n: nat, s: string)
    ensures Slashes(n) + ("\\" + s) == Slashes(n + 1) + s
  {
  }

  predicate Ends(tail: string) {
    tail == "" || IsBlank(tail[0])
  }

  // A run of backslashes and what it stands before.
  lemma RunBefore(n: nat, s: string, quoted: bool, more: string, tail: string)
    requires s != "" && s[0] != '\\'
    ensures Arg(Slashes(n) + (s + more) + tail, quoted, 0) == Arg(s + (more + tail), quoted, n)
  {
    assert Slashes(n) + (s + more) + tail == Slashes(n) + (s + (more + tail));
    SlashRun(n, s + (more + tail), quoted, 0);
  }

  lemma EndReads(tail: string, slashes: nat)
    requires Ends(tail)
    ensures Arg(tail, false, slashes) == (Slashes(slashes), tail)
  {
  }

  lemma ClosingReads(slashes: nat, tail: string)
    requires Ends(tail)
    ensures Arg(Escaped("", slashes) + tail, true, 0) == (Slashes(slashes) + "", tail)
  {
    RunBefore(slashes * 2, "\"", true, "", tail);
    assert Slashes(slashes * 2) + ("\"" + "") == Escaped("", slashes);
    assert ("\"" + ("" + tail))[1..] == tail;
    EndReads(tail, 0);
    assert Slashes(slashes) + ("" + Slashes(0)) == Slashes(slashes) + "";
  }

  lemma CharReads(c: char, slashes: nat, rest: string, tail: string)
    requires c != '\\' && Arg(Escaped(rest, 0) + tail, true, 0) == (rest, tail)
    ensures Arg(Escaped([c] + rest, slashes) + tail, true, 0) == (Slashes(slashes) + ([c] + rest), tail)
  {
    var n := if c == '"' then slashes * 2 + 1 else slashes;
    assert ([c] + rest)[1..] == rest;
    assert Escaped([c] + rest, slashes) == Slashes(n) + ([c] + Escaped(rest, 0));
    RunBefore(n, [c], true, Escaped(rest, 0), tail);
    var s := [c] + (Escaped(rest, 0) + tail);
    assert s[1..] == Escaped(rest, 0) + tail;
    hide Escaped, Slashes;
  }

  lemma {:induction false} EscapedReads(arg: string, slashes: nat, tail: string)
    requires Ends(tail)
    ensures Arg(Escaped(arg, slashes) + tail, true, 0) == (Slashes(slashes) + arg, tail)
    decreases |arg|
  {
    if arg == "" {
      ClosingReads(slashes, tail);
    } else {
      var c, rest := arg[0], arg[1..];
      assert arg == [c] + rest;
      if c == '\\' {
        EscapedReads(rest, slashes + 1, tail);
        MoreSlashes(slashes, rest);
        assert Escaped(arg, slashes) == Escaped(rest, slashes + 1);
      } else {
        EscapedReads(rest, 0, tail);
        assert Slashes(0) + rest == rest;
        CharReads(c, slashes, rest, tail);
      }
      hide Arg, Escaped, Slashes;
    }
  }

  lemma {:induction false} PlainReads(arg: string, slashes: nat, tail: string)
    requires Ends(tail) && forall i :: 0 <= i < |arg| ==> !Special(arg[i])
    ensures Arg(arg + tail, false, slashes) == (Slashes(slashes) + arg, tail)
    decreases |arg|
  {
    if arg == "" {
      assert arg + tail == tail && Slashes(slashes) + arg == Slashes(slashes);
    } else {
      assert (arg + tail)[1..] == arg[1..] + tail;
      assert arg == [arg[0]] + arg[1..];
      if arg[0] == '\\' {
        PlainReads(arg[1..], slashes + 1, tail);
        MoreSlashes(slashes, arg[1..]);
      } else {
        PlainReads(arg[1..], 0, tail);
        assert Slashes(0) + arg[1..] == arg[1..];
      }
    }
  }

  // Any argument at all comes back from its own quoting, whatever follows.
  lemma QuotedReads(arg: string, tail: string)
    requires Ends(tail)
    ensures Arg(Quoted(arg) + tail, false, 0) == (arg, tail)
    ensures Quoted(arg) != "" && !IsBlank(Quoted(arg)[0])
  {
    hide *;
    QuotedIs(arg);
    NoneBefore(arg);
    NoneBefore("" + arg);
    if IsPlain(arg) {
      PlainWhole(arg, tail);
    } else {
      var line := Quoted(arg) + tail;
      assert line[1..] == Escaped(arg, 0) + tail;
      EscapedReads(arg, 0, tail);
      OpensQuote(line);
      assert "" + arg == arg;
    }
  }

  lemma PlainWhole(arg: string, tail: string)
    requires IsPlain(arg) && Ends(tail)
    ensures Arg(arg + tail, false, 0) == (Slashes(0) + arg, tail)
  {
    PlainReads(arg, 0, tail);
    hide Arg, Slashes;
  }

  lemma QuotedIs(arg: string)
    ensures Quoted(arg) == if IsPlain(arg) then arg else "\"" + Escaped(arg, 0)
    ensures Quoted(arg) != "" && !IsBlank(Quoted(arg)[0])
  {
    hide Escaped;
  }

  lemma NoneBefore(s: string)
    ensures Slashes(0) + s == s
  {
  }

  // A quote with no backslash before it only opens the quoting.
  lemma OpensQuote(line: string)
    requires line != "" && line[0] == '"'
    ensures Arg(line, false, 0) == (var (text, rest) := Arg(line[1..], true, 0); (Slashes(0) + ("" + text), rest))
  {
  }

  lemma {:induction false} SpacedReads(args: seq<string>)
    ensures Args(Spaced(args)) == args && Ends(Spaced(args))
  {
    if args != [] {
      var tail := Spaced(args[1..]);
      SpacedReads(args[1..]);
      QuotedReads(args[0], tail);
      hide Arg, Quoted;
      assert Spaced(args)[1..] == Quoted(args[0]) + tail;
      assert Args(Spaced(args)) == Args(Quoted(args[0]) + tail);
      assert (Quoted(args[0]) + tail)[0] == Quoted(args[0])[0];
    }
  }

  // The program names that survive: no quote inside, and no backslash at the
  // end of one that has to be quoted.
  predicate IsProgram(name: string) {
    '"' !in name && (IsPlain(name) || name == "" || name[|name| - 1] != '\\')
  }

  lemma {:induction false} UntilAt(s: string, stop: char -> bool, n: nat)
    requires n <= |s| && (forall i :: 0 <= i < n ==> !stop(s[i])) && (n < |s| ==> stop(s[n]))
    ensures Until(s, stop) == n
  {
    if n > 0 {
      UntilAt(s[1..], stop, n - 1);
    }
  }

  // A name with no quote in it, quoted: backslashes are added only at its end.
  lemma {:induction false} EscapedText(arg: string, slashes: nat) returns (n: nat)
    requires '"' !in arg
    ensures Escaped(arg, slashes) == Slashes(slashes) + arg + Slashes(n) + "\""
    ensures n == 0 <==> if arg == "" then slashes == 0 else arg[|arg| - 1] != '\\'
  {
    hide *;
    EscapeOne(arg, slashes);
    if arg == "" {
      n := slashes;
      TwiceSlashes(slashes);
    } else {
      var c, rest := arg[0], arg[1..];
      assert arg == [c] + rest;
      n := EscapedText(rest, if c == '\\' then slashes + 1 else 0);
      if c == '\\' {
        MoreSlashes(slashes, rest);
      } else {
        NoSlashes(slashes, c, rest, Slashes(n) + "\"");
      }
    }
  }

  lemma EscapeOne(arg: string, slashes: nat)
    requires '"' !in arg
    ensures arg == "" ==> Escaped(arg, slashes) == Slashes(slashes * 2) + "\""
    ensures arg != "" && arg[0] == '\\' ==> Escaped(arg, slashes) == Escaped(arg[1..], slashes + 1)
    ensures arg != "" && arg[0] != '\\' ==> Escaped(arg, slashes) == Slashes(slashes) + ([arg[0]] + Escaped(arg[1..], 0))
  {
    hide Slashes;
  }

  lemma TwiceSlashes(n: nat)
    ensures Slashes(n * 2) == Slashes(n) + "" + Slashes(n)
  {
  }

  lemma NoSlashes(slashes: nat, c: char, rest: string, end: string)
    ensures Slashes(slashes) + ([c] + (Slashes(0) + rest + end)) == Slashes(slashes) + ([c] + rest) + end
  {
    assert Slashes(0) + rest == rest;
    hide Slashes;
  }

  lemma PlainProgram(name: string, tail: string)
    requires IsPlain(name) && Ends(tail)
    ensures ArgvOf(name + tail) == [name] + Args(tail)
  {
    var line := name + tail;
    UntilAt(line, IsBlank, |name|);
    assert line[..|name|] == name && line[|name|..] == tail;
  }

  lemma QuotedName(text: string, tail: string)
    requires '"' !in text
    ensures ArgvOf("\"" + (text + ("\"" + tail))) == [text] + Args(tail)
  {
    var rest := text + ("\"" + tail);
    assert ("\"" + rest)[1..] == rest;
    UntilAt(rest, c => c == '"', |text|);
    assert rest[..|text|] == text && rest[|text| + 1..] == tail;
  }

  lemma QuotedProgram(name: string, tail: string)
    requires !IsPlain(name) && '"' !in name && Ends(tail)
    ensures name == "" || name[|name| - 1] != '\\' ==> ArgvOf(Quoted(name) + tail) == [name] + Args(tail)
    ensures name != "" && name[|name| - 1] == '\\' ==> ArgvOf(Quoted(name) + tail)[0] != name
  {
    var n := EscapedText(name, 0);
    var text := name + Slashes(n);
    assert Slashes(0) + name == name && (n == 0 ==> text == name);
    assert |text| == |name| + n && '"' !in text;
    Joins("\"", text, "\"", tail);
    assert Quoted(name) + tail == "\"" + (text + ("\"" + tail));
    QuotedName(text, tail);
    hide ArgvOf, Quoted, Escaped, Slashes;
  }

  // An embedded quote cuts the name short.
  lemma QuoteInProgram(name: string, tail: string)
    requires '"' in name
    ensures ArgvOf(Quoted(name) + tail)[0] != name
  {
    var rest := (Quoted(name) + tail)[1..];
    UntilBound(rest, c => c == '"');
    assert ArgvOf(Quoted(name) + tail)[0] == rest[..Until(rest, c => c == '"')];
    assert '"' !in ArgvOf(Quoted(name) + tail)[0];
  }

  // Splitting the line built returns the arguments, whatever they are, just
  // when the program's name survives; the name is all that can change.
  lemma LineReads(args: seq<string>)
    requires args != []
    ensures ArgvOf(Line(args)) == args <==> IsProgram(args[0])
  {
    var name, tail := args[0], Spaced(args[1..]);
    SpacedReads(args[1..]);
    assert args == [name] + args[1..];
    if '"' in name {
      QuoteInProgram(name, tail);
    } else if IsPlain(name) {
      PlainProgram(name, tail);
    } else {
      QuotedProgram(name, tail);
    }
    hide ArgvOf, Quoted, Spaced;
  }

  // Two program names that do not survive: one with a quote, and one that is
  // quoted and ends in a backslash.
  lemma NamesLost()
    ensures ArgvOf(Line(["a\"b"])) != ["a\"b"] && ArgvOf(Line(["a b\\"])) != ["a b\\"]
  {
    LineReads(["a\"b"]);
    LineReads(["a b\\"]);
    hide ArgvOf, Line;
    assert "a\"b"[1] == '"';
    assert Special("a b\\"[1]) && "a b\\"[3] == '\\';
  }
}
