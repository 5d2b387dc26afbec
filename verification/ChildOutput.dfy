/** Reading a child process's output line by line, as
    engine/src/exec/git_process_posix.cpp buffers it: whatever pieces the pipe
    hands over, the lines are those of the output. */
module ChildOutput {
  import opened Texts
  import opened Wrappers

  const COMPACT_AFTER := 1048576

  function Joined(chunks: seq<string>): string {
    if chunks == [] then "" else chunks[0] + Joined(chunks[1..])
  }

  // The first line of a text, if it has one, and what follows it.
  ghost predicate FirstLineOf(text: string, line: Option<string>, rest: string) {
    if text == "" then line == None && rest == ""
    else
      var n := LineLength(text);
      line == Some(text[..n]) && rest == if n < |text| then text[n + 1..] else ""
  }

  lemma LineTaken(lines: seq<string>, text: string, line: Option<string>, rest: string)
    requires FirstLineOf(text, line, rest)
    ensures line == None ==> lines + Lines(text) == lines && rest == ""
    ensures line.Some? ==> |rest| < |text| && lines + Lines(text) == lines + [line.value] + Lines(rest)
  {
    if line.Some? {
      LinesOn(text, line, rest);
      hide *;
      Appended(lines, line.value, Lines(rest));
    } else {
      assert lines + [] == lines;
    }
  }

  lemma LinesOn(text: string, line: Option<string>, rest: string)
    requires FirstLineOf(text, line, rest) && line.Some?
    ensures Lines(text) == [line.value] + Lines(rest) && |rest| < |text|
  {
    hide LineLength;
  }

  lemma Appended(lines: seq<string>, line: string, rest: seq<string>)
    ensures lines + ([line] + rest) == lines + [line] + rest
  {
  }

  class GitProcess {
    var buffer: string
    var bufferPos: nat
    var eof: bool
    // What the pipe has yet to hand over, piece by piece.
    var chunks: seq<string>

    ghost predicate Valid()
      reads this
    {
      bufferPos <= |buffer| && (eof ==> chunks == []) && forall c :: c in chunks ==> c != ""
    }

    // The output not yet read.
    ghost function Unread(): string
      requires Valid()
      reads this
    {
      buffer[bufferPos..] + Joined(chunks)
    }

    constructor (chunks: seq<string>)
      requires forall c :: c in chunks ==> c != ""
      ensures Valid() && Unread() == Joined(chunks)
    {
      this.chunks := chunks;
      buffer, bufferPos, eof := "", 0, false;
    }

    method FillBuffer() returns (more: bool)
      requires Valid()
      modifies this
      ensures Valid() && Unread() == old(Unread()) && bufferPos == old(bufferPos)
      ensures more ==> |chunks| < old(|chunks|) && old(buffer) < buffer
      ensures !more ==> chunks == [] && buffer == old(buffer)
      ensures eof <==> !more
    {
      if eof {
        return false;
      }
      if chunks == [] {
        eof := true;
        return false;
      }
      assert chunks[0] in chunks && forall c :: c in chunks[1..] ==> c in chunks;
      assert buffer[bufferPos..] + (chunks[0] + Joined(chunks[1..])) == (buffer + chunks[0])[bufferPos..] + Joined(chunks[1..]);
      buffer := buffer + chunks[0];
      chunks := chunks[1..];
      return true;
    }

    // The next line of the output, however it was handed over.
    method ReadLine() returns (line: Option<string>)
      requires Valid()
      modifies this
      ensures Valid()
      ensures FirstLineOf(old(Unread()), line, Unread())
    {
      hide FirstLineOf, LineLength;
      while true
        invariant Valid() && Unread() == old(Unread())
        decreases |chunks|, if eof then 0 else 1
      {
        var have := buffer[bufferPos..];
        var newline := LineLength(have);
        if newline < |have| {
          FoundInFront(have, Joined(chunks), newline);
          line := Some(have[..newline]);
          bufferPos := bufferPos + newline + 1;
          assert buffer[bufferPos..] == have[newline + 1..];
          assert FirstLineOf(old(Unread()), line, Unread());
          if bufferPos > COMPACT_AFTER && bufferPos > |buffer| / 2 {
            assert buffer[bufferPos..][0..] == buffer[bufferPos..];
            buffer, bufferPos := buffer[bufferPos..], 0;
          }
          return;
        }
        var more := FillBuffer();
        if !more {
          LastLine(have, newline);
          if bufferPos < |buffer| {
            line := Some(buffer[bufferPos..]);
            bufferPos := |buffer|;
            assert Unread() == "";
            assert FirstLineOf(old(Unread()), line, Unread());
            return;
          }
          return None;
        }
      }
    }

    method ReadAll() returns (out: string)
      requires Valid()
      modifies this
      ensures Valid() && out == old(Unread()) && Unread() == ""
    {
      var more := true;
      while more
        invariant Valid() && Unread() == old(Unread()) && (!more ==> chunks == [])
        decreases |chunks|, if more then 1 else 0
      {
        more := FillBuffer();
      }
      out := buffer[bufferPos..];
      assert out + "" == out;
      bufferPos := |buffer|;
    }

    // Line after line to the end: the lines of the whole output.
    method ReadLines() returns (lines: seq<string>)
      requires Valid()
      modifies this
      ensures Valid() && lines == Lines(old(Unread())) && Unread() == ""
    {
      hide Lines, FirstLineOf;
      lines := [];
      assert [] + Lines(Unread()) == Lines(Unread());
      while true
        invariant Valid() && lines + Lines(Unread()) == Lines(old(Unread()))
        decreases |Unread()|
      {
        ghost var text := Unread();
        var line := ReadLine();
        LineTaken(lines, text, line, Unread());
        if line == None {
          return;
        }
        lines := lines + [line.value];
      }
    }
  }

  // A newline in what has arrived is the first of the whole output.
  lemma {:induction false} NewlineInFront(have: string, rest: string)
    requires LineLength(have) < |have|
    ensures LineLength(have + rest) == LineLength(have)
  {
    if have[0] != '\n' {
      assert (have + rest)[1..] == have[1..] + rest;
      NewlineInFront(have[1..], rest);
    }
  }

  lemma FoundInFront(have: string, rest: string, n: nat)
    requires n == LineLength(have) < |have|
    ensures FirstLineOf(have + rest, Some(have[..n]), have[n + 1..] + rest)
  {
    NewlineInFront(have, rest);
    hide LineLength;
    CutInFront(have, rest, n);
  }

  lemma CutInFront(have: string, rest: string, n: nat)
    requires n < |have|
    ensures have + rest != ""
    ensures (have + rest)[..n] == have[..n] && (have + rest)[n + 1..] == have[n + 1..] + rest
  {
    assert |have + rest| > 0;
  }

  // At the end of the output what is left is a line, unless nothing is.
  lemma LastLine(have: string, newline: nat)
    requires newline == LineLength(have) == |have|
    ensures have + "" == have
    ensures FirstLineOf(have, if have == "" then None else Some(have), "")
  {
    assert have[..|have|] == have;
  }
}
