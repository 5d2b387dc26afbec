/** The text of git's rebase todo as engine/src/exec/sequence_editor.cpp reads
    and writes it: lines, the fields on them, and the two kinds of line kept. */
module TodoText {
  import opened Texts
  import opened Wrappers

  // ----- fields -------------------------------------------------------------

  predicate IsSpace(c: char) {
    c == ' ' || c == '\t' || c == '\n' || c == '\r' || c == 11 as char || c == 12 as char
  }

  predicate IsWord(s: string) {
    s != "" && forall c :: c in s ==> !IsSpace(c)
  }

  function SkipSpace(s: string): (r: string)
    ensures |r| <= |s| && (r != "" ==> !IsSpace(r[0]))
  {
    if s != "" && IsSpace(s[0]) then SkipSpace(s[1..]) else s
  }

  function WordLength(s: string): (n: nat)
    ensures n <= |s| && (forall i :: 0 <= i < n ==> !IsSpace(s[i])) && (n < |s| ==> IsSpace(s[n]))
  {
    if s == "" || IsSpace(s[0]) then 0 else 1 + WordLength(s[1..])
  }

  // The next field of a stream and what remains after it.
  function NextWord(s: string): (string, string) {
    var t := SkipSpace(s);
    (t[..WordLength(t)], t[WordLength(t)..])
  }

  lemma {:induction false} WordLengthOf(w: string, rest: string)
    requires (forall c :: c in w ==> !IsSpace(c)) && (rest == "" || IsSpace(rest[0]))
    ensures WordLength(w + rest) == |w|
  {
    if w == "" {
      assert w + rest == rest;
    } else {
      assert (w + rest)[1..] == w[1..] + rest;
      WordLengthOf(w[1..], rest);
    }
  }

  lemma NextWordOf(w: string, rest: string)
    requires IsWord(w) && (rest == "" || IsSpace(rest[0]))
    ensures NextWord(w + rest) == (w, rest) && NextWord(" " + (w + rest)) == (w, rest)
  {
    WordLengthOf(w, rest);
    assert (" " + (w + rest))[1..] == w + rest;
    assert SkipSpace(" " + (w + rest)) == SkipSpace(w + rest) == w + rest;
  }

  // ----- one line -----------------------------------------------------------

  predicate KnownAction(action: string) {
    action in ["pick", "reword", "squash", "fixup", "drop", "edit"]
  }

  function FullCommand(command: string): string {
    match command
    case "p" => "pick"
    case "r" => "reword"
    case "e" => "edit"
    case "s" => "squash"
    case "f" => "fixup"
    case "d" => "drop"
    case "x" => "exec"
    case "b" => "break"
    case "l" => "label"
    case "t" => "reset"
    case "m" => "merge"
    case "u" => "update-ref"
    case _ => command
  }

  datatype Item = Commit(sha: string, rest: string) | Ref(name: string)

  datatype Parsed = Nothing | Found(item: Item) | Unreadable | Unsupported

  function SkipBlanks(s: string): string {
    if s != "" && (s[0] == ' ' || s[0] == '\t') then SkipBlanks(s[1..]) else s
  }

  function DropSpace(rest: string): string {
    if rest != "" && rest[0] == ' ' then rest[1..] else rest
  }

  predicate IsFlagged(command: string, first: string) {
    command == "fixup" && (first == "-C" || first == "-c")
  }

  function ParseLine(line: string, commentChar: string): Parsed {
    var content := SkipBlanks(DropReturn(line));
    if content == "" || content[0] == '#' || commentChar <= content then Nothing
    else ParseContent(content)
  }

  function ParseContent(content: string): Parsed {
    var (word, afterWord) := NextWord(content);
    var command := FullCommand(word);
    if command == "noop" then Nothing
    else if KnownAction(command) then
      var (first, afterFirst) := NextWord(afterWord);
      var (second, afterSecond) := NextWord(afterFirst);
      // A flag before the sha; with nothing after it the flag stays the sha
      // and the stream has nothing more to give.
      if IsFlagged(command, first) then
        if second != "" then Found(Commit(second, DropSpace(afterSecond))) else Found(Commit(first, ""))
      else if first == "" then Unreadable
      else Found(Commit(first, DropSpace(afterFirst)))
    else if command == "update-ref" then
      var (ref, _) := NextWord(afterWord);
      if ref == "" then Unreadable else Found(Ref(ref))
    else Unsupported
  }

  // ----- a line as it is written --------------------------------------------

  datatype Out = Step(action: string, sha: string, rest: string) | UpdateRef(name: string)

  function WriteLine(out: Out): string {
    match out
    case Step(action, sha, rest) => action + (" " + (sha + if rest == "" then "" else " " + rest))
    case UpdateRef(name) => "update-ref" + (" " + (name + ""))
  }

  function AsItem(out: Out): Item {
    match out
    case Step(_, sha, rest) => Commit(sha, rest)
    case UpdateRef(name) => Ref(name)
  }

  predicate Writable(out: Out) {
    match out
    case Step(action, sha, rest) => KnownAction(action) && IsWord(sha) && '\n' !in rest
    case UpdateRef(name) => IsWord(name)
  }

  // The lines that come back as they were written: not taken for a comment,
  // no carriage return at the end, no sha that reads as fixup's flag.
  predicate Survives(out: Out, commentChar: string) {
    && !(commentChar <= WriteLine(out))
    && (out.Step? ==>
          && (out.rest == "" || out.rest[|out.rest| - 1] != '\r')
          && (IsFlagged(out.action, out.sha) ==> out.rest == ""))
  }

  lemma ActionWords(action: string)
    requires KnownAction(action) || action == "update-ref"
    ensures IsWord(action) && FullCommand(action) == action && action != "noop" && action[0] != '#' && action[0] != ' ' && action[0] != '\t'
    ensures !KnownAction("update-ref")
  {
  }

  // A commit's line parsed, whatever follows the sha.
  lemma ParsedCommit(action: string, sha: string, tail: string)
    requires KnownAction(action) && IsWord(sha) && (tail == "" || IsSpace(tail[0]))
    ensures var p := ParseContent(action + (" " + (sha + tail)));
      && p.Found? && p.item.Commit?
      && (!IsFlagged(action, sha) || tail == "" ==> p.item == Commit(sha, DropSpace(tail)))
      && (tail != "" && IsFlagged(action, sha) ==> |p.item.rest| < |tail| - 1 || p.item.rest == "")
  {
    ActionWords(action);
    NextWordOf(action, " " + (sha + tail));
    NextWordOf(sha, tail);
    if tail == "" {
      assert NextWord(tail).0 == "";
    } else {
      WordAfterSpace(tail);
    }
    hide KnownAction, IsWord, FullCommand, SkipSpace, WordLength, NextWord;
  }

  lemma WordAfterSpace(s: string)
    requires s != "" && IsSpace(s[0])
    ensures |NextWord(s).0| + |NextWord(s).1| < |s|
  {
    assert SkipSpace(s) == SkipSpace(s[1..]);
  }

  lemma ContentOf(out: Out)
    requires Writable(out)
    ensures var line := WriteLine(out); line != "" && SkipBlanks(line) == line && line[0] != '#'
  {
    if out.Step? { ActionWords(out.action); } else { ActionWords("update-ref"); }
  }

  lemma CommitReadsBack(action: string, sha: string, rest: string, commentChar: string)
    requires Writable(Step(action, sha, rest)) && rest != ""
    ensures var out := Step(action, sha, rest);
      ParseLine(WriteLine(out), commentChar) == Found(AsItem(out)) <==> Survives(out, commentChar)
  {
    var line := WriteLine(Step(action, sha, rest));
    ContentOf(Step(action, sha, rest));
    var tail := " " + rest;
    assert tail[1..] == rest && line == action + (" " + (sha + tail)) && line[|line| - 1] == rest[|rest| - 1];
    if rest[|rest| - 1] == '\r' {
      var shorter := tail[..|tail| - 1];
      assert DropReturn(line) == action + (" " + (sha + shorter));
      ActionWords(action);
      assert SkipBlanks(DropReturn(line)) == DropReturn(line);
      ParsedCommit(action, sha, shorter);
    } else {
      ParsedCommit(action, sha, tail);
    }
    hide ParseContent, KnownAction, IsWord, SkipBlanks;
  }

  lemma BareReadsBack(action: string, sha: string, commentChar: string)
    requires Writable(Step(action, sha, ""))
    ensures var out := Step(action, sha, "");
      ParseLine(WriteLine(out), commentChar) == Found(AsItem(out)) <==> Survives(out, commentChar)
  {
    var line := WriteLine(Step(action, sha, ""));
    ContentOf(Step(action, sha, ""));
    assert line[|line| - 1] == sha[|sha| - 1];
    ParsedCommit(action, sha, "");
    NoReturn(line, sha);
    hide ParseContent, KnownAction, SkipBlanks, DropReturn, IsWord;
    assert line == action + (" " + (sha + ""));
    assert DropSpace("") == "";
  }

  lemma ParsedRef(name: string)
    requires IsWord(name)
    ensures ParseContent("update-ref" + (" " + name)) == Found(Ref(name))
  {
    ActionWords("update-ref");
    NextWordOf("update-ref", " " + name);
    assert name + "" == name;
    NextWordOf(name, "");
    hide SkipSpace, WordLength, IsWord, NextWord, KnownAction;
  }

  lemma RefReadsBack(name: string, commentChar: string)
    requires IsWord(name)
    ensures ParseLine(WriteLine(UpdateRef(name)), commentChar) == Found(Ref(name)) <==> Survives(UpdateRef(name), commentChar)
  {
    var line := WriteLine(UpdateRef(name));
    ContentOf(UpdateRef(name));
    ParsedRef(name);
    assert line == "update-ref" + (" " + name) && line[|line| - 1] == name[|name| - 1];
    NoReturn(line, name);
    hide ParseContent, SkipBlanks, DropReturn, IsWord, KnownAction;
  }

  // A line that ends in a word keeps its end.
  lemma NoReturn(line: string, word: string)
    requires IsWord(word) && line != "" && line[|line| - 1] == word[|word| - 1]
    ensures DropReturn(line) == line
  {
    assert word[|word| - 1] in word;
  }

  // A written line reads back as the item written exactly when it survives.
  lemma ReadsBack(out: Out, commentChar: string)
    requires Writable(out)
    ensures ParseLine(WriteLine(out), commentChar) == Found(AsItem(out)) <==> Survives(out, commentChar)
  {
    hide ParseLine, WriteLine, Survives;
    match out {
      case Step(action, sha, rest) =>
        if rest == "" { BareReadsBack(action, sha, commentChar); } else { CommitReadsBack(action, sha, rest, commentChar); }
      case UpdateRef(name) => RefReadsBack(name, commentChar);
    }
  }

  // ----- what each line means -----------------------------------------------

  predicate AreBlanks(blanks: string) {
    forall i :: 0 <= i < |blanks| ==> blanks[i] == ' ' || blanks[i] == '\t'
  }

  lemma {:induction false} BlanksSkipped(blanks: string, s: string)
    requires AreBlanks(blanks)
    ensures SkipBlanks(blanks + s) == SkipBlanks(s)
  {
    if blanks == "" {
      assert blanks + s == s;
    } else {
      assert (blanks + s)[1..] == blanks[1..] + s;
      BlanksSkipped(blanks[1..], s);
    }
  }

  lemma IndentedReturn(blanks: string, s: string)
    requires AreBlanks(blanks)
    ensures DropReturn(blanks + s) == blanks + DropReturn(s)
  {
    if s == "" {
      assert blanks + s == blanks;
    }
  }

  // Any line means what its content does.
  lemma IndentedContent(blanks: string, s: string)
    requires AreBlanks(blanks)
    ensures SkipBlanks(DropReturn(blanks + s)) == SkipBlanks(DropReturn(s))
  {
    IndentedReturn(blanks, s);
    BlanksSkipped(blanks, DropReturn(s));
    hide SkipBlanks, DropReturn;
  }

  // Blank lines and comments, indented or not, say nothing.
  lemma LinesSkipped(blanks: string, text: string, commentChar: string)
    requires forall i :: 0 <= i < |blanks| ==> blanks[i] == ' ' || blanks[i] == '\t'
    ensures ParseLine(blanks, commentChar) == Nothing && ParseLine(blanks + "\r", commentChar) == Nothing
    ensures ParseLine(blanks + ("#" + text), commentChar) == Nothing
    ensures commentChar != "" && commentChar[0] != ' ' && commentChar[0] != '\t' && text != "" ==>
      ParseLine(blanks + (commentChar + text), commentChar) == Nothing
  {
    assert blanks + "" == blanks;
    IndentedContent(blanks, "");
    IndentedContent(blanks, "\r");
    IndentedContent(blanks, "#" + text);
    IndentedContent(blanks, commentChar + text);
    CommentContent(text, commentChar);
    assert DropReturn("\r") == "" && DropReturn("") == "";
    hide ParseContent, DropReturn;
  }

  lemma CommentContent(text: string, commentChar: string)
    ensures SkipBlanks("") == ""
    ensures var s := SkipBlanks(DropReturn("#" + text)); s != "" && s[0] == '#'
    ensures commentChar != "" && commentChar[0] != ' ' && commentChar[0] != '\t' && text != "" ==>
      commentChar <= SkipBlanks(DropReturn(commentChar + text))
  {
  }

  // Any other line is its content, a carriage return at its end dropped.
  lemma LinesRead(blanks: string, content: string, commentChar: string)
    requires forall i :: 0 <= i < |blanks| ==> blanks[i] == ' ' || blanks[i] == '\t'
    requires content != "" && content[0] != ' ' && content[0] != '\t' && content[0] != '#' && !(commentChar <= content)
    ensures content[|content| - 1] != '\r' ==> ParseLine(blanks + content, commentChar) == ParseContent(content)
    ensures ParseLine(blanks + (content + "\r"), commentChar) == ParseContent(content)
  {
    IndentedContent(blanks, content);
    IndentedContent(blanks, content + "\r");
    assert DropReturn(content + "\r") == content;
    hide ParseContent;
  }

  // A command as the todo may shorten it.
  predicate Shortens(word: string, command: string) {
    || word == command
    || (word, command) in [("p", "pick"), ("r", "reword"), ("e", "edit"), ("s", "squash"), ("f", "fixup"), ("d", "drop"),
                           ("x", "exec"), ("b", "break"), ("l", "label"), ("t", "reset"), ("m", "merge"), ("u", "update-ref")]
  }

  const COMMIT_COMMANDS: seq<string> := ["pick", "reword", "edit", "squash", "drop", "fixup"]

  lemma FullAction(word: string, command: string)
    requires Shortens(word, command) && command in COMMIT_COMMANDS
    ensures IsWord(word) && FullCommand(word) == command && KnownAction(command)
    ensures command != "noop" && (command == "fixup" <==> word == "f" || word == "fixup")
  {
    CommandWords(word);
  }

  lemma CommandWords(word: string)
    requires |word| == 1 || word in COMMIT_COMMANDS
    ensures word != "" && !IsSpace(word[0]) ==> IsWord(word)
  {
  }
  // A commit's line: the command, a fixup's flag, the sha, and the rest without
  // the space before it.
  lemma CommitCommands(word: string, command: string, sha: string, tail: string)
    requires Shortens(word, command) && command in COMMIT_COMMANDS
    requires sha != "" && forall i :: 0 <= i < |sha| ==> sha[i] !in [' ', '\t', '\n', '\r', 11 as char, 12 as char]
    requires tail == "" || tail[0] in [' ', '\t', '\n', '\r', 11 as char, 12 as char]
    ensures command != "fixup" || (sha != "-C" && sha != "-c") ==>
      ParseContent(word + (" " + (sha + tail))) == Found(Commit(sha, DropSpace(tail)))
    ensures command == "fixup" ==>
      && ParseContent(word + (" " + ("-C" + (" " + (sha + tail))))) == Found(Commit(sha, DropSpace(tail)))
      && ParseContent(word + (" " + ("-c" + (" " + (sha + tail))))) == Found(Commit(sha, DropSpace(tail)))
  {
    FullAction(word, command);
    assert IsWord(sha) && (tail == "" || IsSpace(tail[0]));
    if command != "fixup" || (sha != "-C" && sha != "-c") {
      PlainCommit(word, sha, tail);
    }
    if command == "fixup" {
      assert IsWord("-C") && IsWord("-c");
      FlaggedCommit(word, "-C", sha, tail);
      FlaggedCommit(word, "-c", sha, tail);
    }
    hide ParseContent, IsWord, FullCommand, KnownAction, DropSpace, Shortens;
  }

  lemma PlainCommit(word: string, sha: string, tail: string)
    requires IsWord(word) && KnownAction(FullCommand(word)) && FullCommand(word) != "noop"
    requires IsWord(sha) && (tail == "" || IsSpace(tail[0])) && !IsFlagged(FullCommand(word), sha)
    ensures ParseContent(word + (" " + (sha + tail))) == Found(Commit(sha, DropSpace(tail)))
  {
    NextWordOf(word, " " + (sha + tail));
    NextWordOf(sha, tail);
    hide KnownAction, IsWord, FullCommand, SkipSpace, WordLength, NextWord, DropSpace;
  }

  lemma FlaggedCommit(word: string, flag: string, sha: string, tail: string)
    requires IsWord(word) && KnownAction(FullCommand(word)) && FullCommand(word) != "noop"
    requires IsWord(flag) && IsWord(sha) && (tail == "" || IsSpace(tail[0])) && IsFlagged(FullCommand(word), flag)
    ensures ParseContent(word + (" " + (flag + (" " + (sha + tail))))) == Found(Commit(sha, DropSpace(tail)))
  {
    NextWordOf(word, " " + (flag + (" " + (sha + tail))));
    NextWordOf(flag, " " + (sha + tail));
    NextWordOf(sha, tail);
    hide KnownAction, IsWord, FullCommand, SkipSpace, WordLength, NextWord, DropSpace;
  }

  predicate NamesCommit(word: string) {
    || Shortens(word, "pick") || Shortens(word, "reword") || Shortens(word, "edit")
    || Shortens(word, "squash") || Shortens(word, "fixup") || Shortens(word, "drop")
  }

  // Nothing, a ref, or a line the editor does not support.
  lemma OtherCommands(word: string, name: string, tail: string)
    requires IsWord(word) && IsWord(name) && (tail == "" || IsSpace(tail[0]))
    ensures word == "noop" ==> ParseContent(word + tail) == Nothing
    ensures Shortens(word, "update-ref") ==> ParseContent(word + (" " + (name + tail))) == Found(Ref(name))
    ensures word != "noop" && !Shortens(word, "update-ref") && !NamesCommit(word) ==>
      ParseContent(word + tail) == Unsupported
  {
    NextWordOf(word, tail);
    NextWordOf(word, " " + (name + tail));
    NextWordOf(name, tail);
    OtherFull(word);
    hide KnownAction, IsWord, FullCommand, SkipSpace, WordLength, NextWord, Shortens, NamesCommit;
  }

  lemma OtherFull(word: string)
    ensures word == "noop" ==> FullCommand(word) == "noop"
    ensures Shortens(word, "update-ref") ==> FullCommand(word) == "update-ref" && !KnownAction("update-ref")
    ensures word != "noop" && !Shortens(word, "update-ref") && !NamesCommit(word) ==>
      var command := FullCommand(word); command != "noop" && command != "update-ref" && !KnownAction(command)
  {
  }

  // ----- whole texts --------------------------------------------------------

  function WriteText(outs: seq<Out>): string {
    if outs == [] then "" else WriteLine(outs[0]) + "\n" + WriteText(outs[1..])
  }

  function WriteLines(outs: seq<Out>): seq<string> {
    seq(|outs|, i requires 0 <= i < |outs| => WriteLine(outs[i]))
  }

  lemma NoNewline(out: Out)
    requires Writable(out)
    ensures '\n' !in WriteLine(out)
  {
    if out.Step? { ActionWords(out.action); } else { ActionWords("update-ref"); }
  }

  lemma {:induction false} TextLines(outs: seq<Out>)
    requires forall o :: o in outs ==> Writable(o)
    ensures Lines(WriteText(outs)) == WriteLines(outs)
  {
    if outs != [] {
      NoNewline(outs[0]);
      FirstLine(WriteLine(outs[0]), WriteText(outs[1..]));
      TextLines(outs[1..]);
      WriteLinesSplit(outs);
    }
    hide Lines, WriteLine, WriteLines, Writable;
  }

  lemma WriteLinesSplit(outs: seq<Out>)
    requires outs != []
    ensures WriteLines(outs) == [WriteLine(outs[0])] + WriteLines(outs[1..])
    ensures AsItems(outs) == [AsItem(outs[0])] + AsItems(outs[1..])
  {
  }

  datatype ReadError = UnreadableLine(line: string) | UnsupportedLine(line: string)

  // The items of a text up to the first line that cannot be read.
  function ReadItems(lines: seq<string>, commentChar: string): Result<seq<Item>, ReadError> {
    if lines == [] then Ok([]) else
      match ParseLine(lines[0], commentChar)
      case Unreadable => Err(UnreadableLine(lines[0]))
      case Unsupported => Err(UnsupportedLine(lines[0]))
      case Nothing => ReadItems(lines[1..], commentChar)
      case Found(item) =>
        match ReadItems(lines[1..], commentChar)
        case Err(e) => Err(e)
        case Ok(items) => Ok([item] + items)
  }

  function AsItems(outs: seq<Out>): seq<Item> {
    seq(|outs|, i requires 0 <= i < |outs| => AsItem(outs[i]))
  }

  lemma {:induction false} AtMostLines(lines: seq<string>, commentChar: string)
    ensures var r := ReadItems(lines, commentChar); r.Ok? ==> |r.value| <= |lines|
  {
    if lines != [] {
      AtMostLines(lines[1..], commentChar);
    }
  }

  lemma SurvivesSplit(outs: seq<Out>, commentChar: string)
    requires outs != []
    ensures (forall o :: o in outs ==> Writable(o)) ==> Writable(outs[0]) && forall o :: o in outs[1..] ==> Writable(o)
    ensures (forall o :: o in outs ==> Survives(o, commentChar))
      <==> Survives(outs[0], commentChar) && forall o :: o in outs[1..] ==> Survives(o, commentChar)
  {
    hide *;
    assert outs == [outs[0]] + outs[1..];
    assert forall o :: o in outs <==> o == outs[0] || o in outs[1..];
  }

  lemma NothingReadsBack(commentChar: string)
    ensures ReadItems(WriteLines([]), commentChar) == Ok(AsItems([]))
  {
    assert WriteLines([]) == [] && AsItems([]) == [];
  }

  lemma LengthsAgree(outs: seq<Out>)
    ensures |AsItems(outs)| == |WriteLines(outs)| == |outs|
  {
  }

  // A written text reads back as the items written exactly when every one of
  // its lines survives.
  lemma {:induction false} TextReadsBack(outs: seq<Out>, commentChar: string)
    requires forall o :: o in outs ==> Writable(o)
    ensures ReadItems(Lines(WriteText(outs)), commentChar) == Ok(AsItems(outs)) <==> forall o :: o in outs ==> Survives(o, commentChar)
  {
    hide *;
    TextLines(outs);
    if outs != [] {
      SurvivesSplit(outs, commentChar);
      TextLines(outs[1..]);
      TextReadsBack(outs[1..], commentChar);
      ReadsBack(outs[0], commentChar);
      LengthsAgree(outs[1..]);
      WriteLinesSplit(outs);
      ReadFirst(WriteLine(outs[0]), WriteLines(outs[1..]), AsItem(outs[0]), AsItems(outs[1..]), commentChar);
    } else {
      NothingReadsBack(commentChar);
    }
  }

  lemma ReadFirst(line: string, lines: seq<string>, item: Item, items: seq<Item>, commentChar: string)
    requires |items| == |lines|
    ensures ReadItems([line] + lines, commentChar) == Ok([item] + items) <==>
      ParseLine(line, commentChar) == Found(item) && ReadItems(lines, commentChar) == Ok(items)
  {
    assert ([line] + lines)[1..] == lines;
    AtMostLines(lines, commentChar);
    hide ParseLine;
    var tail := ReadItems(lines, commentChar);
    if ReadItems([line] + lines, commentChar) == Ok([item] + items) && ParseLine(line, commentChar).Found? {
      assert tail.Ok? && [ParseLine(line, commentChar).item] + tail.value == [item] + items;
      assert ([item] + items)[0] == item && ([item] + items)[1..] == items;
      assert ([ParseLine(line, commentChar).item] + tail.value)[0] == ParseLine(line, commentChar).item;
      assert ([ParseLine(line, commentChar).item] + tail.value)[1..] == tail.value;
    }
  }

  // ----- what reading yields can be written ---------------------------------

  predicate ItemWritable(item: Item) {
    match item
    case Commit(sha, rest) => IsWord(sha) && '\n' !in rest
    case Ref(name) => IsWord(name)
  }

  lemma {:induction false} SkipSpaceKeeps(s: string)
    requires '\n' !in s
    ensures '\n' !in SkipSpace(s) && '\n' !in SkipBlanks(s)
  {
    if s != "" {
      SkipSpaceKeeps(s[1..]);
    }
  }

  lemma NextWordKeeps(s: string)
    requires '\n' !in s
    ensures '\n' !in NextWord(s).1 && (NextWord(s).0 != "" ==> IsWord(NextWord(s).0))
  {
    SkipSpaceKeeps(s);
    var t := SkipSpace(s);
    forall c | c in t[..WordLength(t)] ensures !IsSpace(c) {
      var i :| 0 <= i < WordLength(t) && t[i] == c;
    }
  }

  lemma ParsedWritable(line: string, commentChar: string)
    requires '\n' !in line && ParseLine(line, commentChar).Found?
    ensures ItemWritable(ParseLine(line, commentChar).item)
  {
    SkipSpaceKeeps(DropReturn(line));
    var content := SkipBlanks(DropReturn(line));
    NextWordKeeps(content);
    var (word, afterWord) := NextWord(content);
    NextWordKeeps(afterWord);
    var (first, afterFirst) := NextWord(afterWord);
    NextWordKeeps(afterFirst);
    hide NextWord, SkipBlanks, IsWord, KnownAction, FullCommand;
  }

  lemma {:induction false} LinesKeep(text: string)
    ensures forall l :: l in Lines(text) ==> '\n' !in l
    decreases |text|
  {
    if text != "" {
      var n := LineLength(text);
      LinesKeep(if n < |text| then text[n + 1..] else "");
    }
  }

  lemma {:induction false} ReadWritable(lines: seq<string>, commentChar: string)
    requires forall l :: l in lines ==> '\n' !in l
    ensures var r := ReadItems(lines, commentChar); r.Ok? ==> forall i :: i in r.value ==> ItemWritable(i)
  {
    hide ParseLine, ItemWritable;
    if lines != [] {
      ReadWritable(lines[1..], commentChar);
      if ParseLine(lines[0], commentChar).Found? {
        ParsedWritable(lines[0], commentChar);
      }
    }
  }

  // Three lines that do not read back: one ending in a carriage return, one
  // taken for a comment, and a fixup of what looks like its flag.
  lemma LinesLost()
    ensures ParseLine(WriteLine(Step("pick", "a", "b\r")), "#") != Found(AsItem(Step("pick", "a", "b\r")))
    ensures ParseLine(WriteLine(UpdateRef("a")), "u") != Found(AsItem(UpdateRef("a")))
    ensures ParseLine(WriteLine(Step("fixup", "-C", "b")), "#") != Found(AsItem(Step("fixup", "-C", "b")))
  {
    assert "b\r"[|"b\r"| - 1] == '\r';
    assert "u" <= WriteLine(UpdateRef("a"));
    ReadsBack(Step("pick", "a", "b\r"), "#");
    ReadsBack(UpdateRef("a"), "u");
    ReadsBack(Step("fixup", "-C", "b"), "#");
    hide ParseLine, WriteLine;
  }
}
