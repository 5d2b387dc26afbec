/** Frames of the base protocol of the Language Server Protocol (its header
    part), as engine/src/rpc/framing.cpp reads and writes them. Texts are
    strings of bytes. */
module Framing {
  import opened Texts
  import opened Wrappers

  const MAX_FRAME_BYTES: nat := 64 * 1024 * 1024
  const HEADER := "Content-Length:"

  // ----- reading ------------------------------------------------------------

  function SkipSpaces(s: string): string {
    if s != "" && s[0] == ' ' then SkipSpaces(s[1..]) else s
  }

  // A payload or none, what is left of the stream, and whether the stream is
  // given up as malformed.
  datatype Reading = Reading(payload: Option<string>, rest: string, failed: bool)

  function AfterLine(s: string): string
    requires s != ""
    ensures |AfterLine(s)| < |s|
  {
    var n := LineLength(s);
    if n < |s| then s[n + 1..] else ""
  }

  // The header's value; none when it is no number or over the limit.
  function ContentLength(line: string): Option<nat>
    requires HEADER <= line
  {
    var value := SkipSpaces(line[|HEADER|..]);
    if value == "" || !IsDigit(value[0]) then None
    else
      var n := ReadDigits(value, 0).0;
      if n > MAX_FRAME_BYTES then None else Some(n)
  }

  // What reading gives, part way through a frame's headers.
  function ReadFrom(s: string, contentLength: nat, sawLength: bool): (r: Reading)
    ensures if s == "" then r == Reading(None, "", false) else |r.rest| < |s|
    decreases |s|
  {
    if s == "" then Reading(None, "", false)
    else
      var line, rest := DropReturn(s[..LineLength(s)]), AfterLine(s);
      if line == "" then
        if !sawLength then Reading(None, rest, false)
        else if |rest| < contentLength then Reading(None, "", false)
        else Reading(Some(rest[..contentLength]), rest[contentLength..], false)
      else if HEADER <= line then
        match ContentLength(line)
        case None => Reading(None, rest, true)
        case Some(n) => ReadFrom(rest, n, true)
      else ReadFrom(rest, contentLength, sawLength)
  }

  class FrameReader {
    var unread: string
    var failed: bool

    constructor (stream: string)
      ensures unread == stream && !failed
    {
      unread, failed := stream, false;
    }

    method Read() returns (payload: Option<string>)
      modifies this
      ensures var r := ReadFrom(old(unread), 0, false);
        payload == r.payload && unread == r.rest && failed == (old(failed) || r.failed)
    {
      var contentLength: nat := 0;
      var sawLength := false;
      while unread != ""
        invariant ReadFrom(unread, contentLength, sawLength) == ReadFrom(old(unread), 0, false)
        invariant failed == old(failed)
        decreases |unread|
      {
        var line := DropReturn(unread[..LineLength(unread)]);
        var rest := AfterLine(unread);
        unread := rest;
        if line == "" {
          if !sawLength {
            return None;
          }
          if |rest| < contentLength {
            unread := "";
            return None;
          }
          unread := rest[contentLength..];
          return Some(rest[..contentLength]);
        }
        if HEADER <= line {
          var value := line[|HEADER|..];
          while value != "" && value[0] == ' '
            invariant SkipSpaces(value) == SkipSpaces(line[|HEADER|..])
            decreases |value|
          {
            value := value[1..];
          }
          if value == "" || !IsDigit(value[0]) {
            failed := true;
            return None;
          }
          contentLength := ReadDigits(value, 0).0;
          if contentLength > MAX_FRAME_BYTES {
            failed := true;
            return None;
          }
          sawLength := true;
        }
      }
      return None;
    }
  }

  // ----- writing ------------------------------------------------------------

  function Written(payload: string): string {
    "Content-Length: " + Decimal(|payload|) + "\r\n\r\n" + payload
  }

  function AllWritten(payloads: seq<string>): string {
    if payloads == [] then "" else Written(payloads[0]) + AllWritten(payloads[1..])
  }

  // Every payload until reading gives none, and whether the stream failed.
  function ReadAll(s: string): (seq<string>, bool)
    decreases |s|
  {
    var r := ReadFrom(s, 0, false);
    if r.payload.None? then ([], r.failed)
    else
      var (more, failed) := ReadAll(r.rest);
      ([r.payload.value] + more, failed)
  }

  // A line read off the front, whatever it is.
  lemma OneLine(line: string, rest: string, contentLength: nat, sawLength: bool)
    requires '\n' !in line
    ensures var s := line + "\n" + rest;
      && s != "" && s[..LineLength(s)] == line && AfterLine(s) == rest
  {
    LineLengthOf(line, "\n" + rest);
    var s := line + "\n" + rest;
    assert s == line + ("\n" + rest);
    assert s[..|line|] == line && s[|line| + 1..] == rest;
  }

  lemma LastLine(line: string)
    requires '\n' !in line && line != ""
    ensures line[..LineLength(line)] == line && AfterLine(line) == ""
  {
    LineLengthOf(line, "");
    assert line + "" == line && line[..|line|] == line;
  }

  // A header the reader does not know is skipped.
  lemma HeaderSkipped(line: string, rest: string, contentLength: nat, sawLength: bool)
    requires '\n' !in line && DropReturn(line) != "" && !(HEADER <= line)
    ensures ReadFrom(line + "\n" + rest, contentLength, sawLength) == ReadFrom(rest, contentLength, sawLength)
  {
    OneLine(line, rest, contentLength, sawLength);
    assert DropReturn(line) <= line;
    assert HEADER <= DropReturn(line) ==> HEADER <= line;
  }

  lemma {:induction false} ReadsPart(n: nat, j: nat)
    requires 1 <= j <= |Decimal(n)|
    ensures ReadDigits(Decimal(n)[..j], 0).0 <= n && IsDigit(Decimal(n)[..j][0])
  {
    DecimalStarts(n);
    if j == |Decimal(n)| {
      ReadDecimal(n, "");
      assert Decimal(n)[..j] == Decimal(n) && Decimal(n) + "" == Decimal(n);
    } else {
      assert Decimal(n)[..j] == Decimal(n / 10)[..j];
      ReadsPart(n / 10, j);
    }
  }

  lemma {:induction false} DecimalDigits(n: nat)
    ensures '\n' !in Decimal(n) && '\r' !in Decimal(n) && ' ' !in Decimal(n)
  {
    if n >= 10 { DecimalDigits(n / 10); }
  }

  // The header's value is what follows the blank.
  lemma ValueOf(digits: string)
    requires digits != "" && IsDigit(digits[0])
    ensures var line := "Content-Length: " + digits;
      && HEADER <= line && line[|line| - 1] == digits[|digits| - 1] && SkipSpaces(line[|HEADER|..]) == digits
  {
    var line := "Content-Length: " + digits;
    assert line[..|HEADER|] == HEADER && line[|HEADER|..] == " " + digits;
    assert (" " + digits)[1..] == digits;
  }

  lemma LengthRead(n: nat, j: nat)
    requires 1 <= j <= |Decimal(n)|
    ensures var line := "Content-Length: " + Decimal(n)[..j];
      && HEADER <= line && '\n' !in line && line[|line| - 1] != '\r'
      && (n <= MAX_FRAME_BYTES ==> ContentLength(line).Some?)
      && (j == |Decimal(n)| ==> ContentLength(line) == if n <= MAX_FRAME_BYTES then Some(n) else None)
  {
    var digits := Decimal(n)[..j];
    DecimalDigits(n);
    ReadsPart(n, j);
    ValueOf(digits);
    hide SkipSpaces, Decimal, ReadDigits;
    if j == |Decimal(n)| {
      ReadDecimal(n, "");
      assert Decimal(n)[..j] == Decimal(n) && Decimal(n) + "" == Decimal(n);
      NoDigits(n);
    }
  }

  lemma NoDigits(n: nat)
    ensures ReadDigits("", n) == (n, "")
  {
  }

  lemma HeaderRead(n: nat, body: string)
    ensures ReadFrom("Content-Length: " + Decimal(n) + "\r" + "\n" + body, 0, false)
         == if n <= MAX_FRAME_BYTES then ReadFrom(body, n, true) else Reading(None, body, true)
  {
    var line := "Content-Length: " + Decimal(n);
    DecimalStarts(n);
    LengthRead(n, |Decimal(n)|);
    assert Decimal(n)[..|Decimal(n)|] == Decimal(n);
    hide Decimal, ContentLength, LineLength;
    OneLine(line + "\r", body, 0, false);
    assert DropReturn(line + "\r") == line by { assert (line + "\r")[..|line|] == line; }
    hide DropReturn;
  }

  lemma BodyRead(payload: string, tail: string)
    ensures ReadFrom("\r" + "\n" + (payload + tail), |payload|, true) == Reading(Some(payload), tail, false)
  {
    OneLine("\r", payload + tail, |payload|, true);
    assert DropReturn("\r") == "";
    assert (payload + tail)[..|payload|] == payload && (payload + tail)[|payload|..] == tail;
    hide LineLength;
  }

  // A frame comes back whole, with the stream right after it.
  lemma WrittenReads(payload: string, tail: string)
    requires |payload| <= 64 * 1024 * 1024
    ensures ReadFrom(Written(payload) + tail, 0, false) == Reading(Some(payload), tail, false)
  {
    var body := "\r" + "\n" + (payload + tail);
    WrittenSplit(payload, tail);
    HeaderRead(|payload|, body);
    BodyRead(payload, tail);
    hide ReadFrom, Decimal, Written;
  }

  lemma Regroup(front: string, payload: string, tail: string)
    ensures front + "\r\n\r\n" + payload + tail == front + "\r" + "\n" + ("\r" + "\n" + (payload + tail))
    ensures "\r" + "\n" + (payload + tail) == "\r\n" + payload + tail
  {
    assert "\r\n\r\n" == "\r" + "\n" + "\r" + "\n";
  }

  lemma WrittenSplit(payload: string, tail: string)
    ensures var body := "\r" + "\n" + (payload + tail);
      && Written(payload) + tail == "Content-Length: " + Decimal(|payload|) + "\r" + "\n" + body
      && body == "\r\n" + payload + tail
  {
    hide Decimal;
    Regroup("Content-Length: " + Decimal(|payload|), payload, tail);
  }

  // A frame over the limit is refused at its header.
  lemma LongRefused(payload: string, tail: string)
    requires |payload| > 64 * 1024 * 1024
    ensures ReadFrom(Written(payload) + tail, 0, false) == Reading(None, "\r\n" + payload + tail, true)
  {
    var body := "\r" + "\n" + (payload + tail);
    WrittenSplit(payload, tail);
    HeaderRead(|payload|, body);
    hide ReadFrom, Decimal, Written;
  }

  // Frames written one after the other are read back in order, to the end of
  // the stream and without failure.
  lemma {:induction false} AllReadBack(payloads: seq<string>)
    requires forall p :: p in payloads ==> |p| <= 64 * 1024 * 1024
    ensures ReadAll(AllWritten(payloads)) == (payloads, false)
  {
    hide ReadFrom, ReadAll, Written;
    if payloads == [] {
      NothingCut();
      ReadAllOf("");
    } else {
      WrittenReads(payloads[0], AllWritten(payloads[1..]));
      AllReadBack(payloads[1..]);
      ReadAllOf(AllWritten(payloads));
      assert payloads == [payloads[0]] + payloads[1..];
    }
  }

  // ----- a stream cut short -------------------------------------------------

  // What a cut frame gives: no payload, or the payload of an empty frame that
  // lacks only its last newline. Cut before the number, it reads as malformed.
  predicate LacksNewline(part: string) {
    part == "Content-Length: 0\r\n\r"
  }

  predicate LacksNumber(part: string) {
    part == HEADER || part == HEADER + " "
  }

  lemma ShortHeader(part: string)
    requires part < HEADER
    ensures ReadFrom(part, 0, false) == Reading(None, "", false)
  {
    if part != "" {
      assert '\n' !in part by { forall i | 0 <= i < |part| ensures part[i] != '\n' { assert part[i] == HEADER[i]; } }
      LastLine(part);
      assert part[|part| - 1] == HEADER[|part| - 1];
      assert DropReturn(part) == part;
    }
  }

  lemma AfterHeader(value: string)
    requires '\n' !in value
    ensures HEADER <= HEADER + value && (HEADER + value)[|HEADER|..] == value && '\n' !in HEADER + value
  {
  }

  lemma NoNumber(part: string)
    requires LacksNumber(part)
    ensures ReadFrom(part, 0, false) == Reading(None, "", true)
  {
    var value := if part == HEADER then "" else " ";
    assert HEADER + "" == HEADER;
    assert part == HEADER + value && |part| >= 15 && part[|part| - 1] != '\r';
    AfterHeader(value);
    assert SkipSpaces(value) == "" by { assert " "[1..] == ""; }
    assert DropReturn(part) == part;
    hide LacksNumber, SkipSpaces, DropReturn;
    LastLine(part);
  }

  // Cut within the number or within the line ending after it.
  lemma ReturnDropped(line: string)
    requires line != "" && line[|line| - 1] != '\r'
    ensures DropReturn(line + "\r") == line && DropReturn(line) == line
  {
    assert (line + "\r")[..|line|] == line;
  }

  lemma CutNumber(n: nat, j: nat, end: string)
    requires n <= 64 * 1024 * 1024 && 1 <= j <= |Decimal(n)| && end in ["", "\r", "\r\n"]
    requires end != "" ==> j == |Decimal(n)|
    ensures ReadFrom("Content-Length: " + Decimal(n)[..j] + end, 0, false) == Reading(None, "", false)
  {
    var line := "Content-Length: " + Decimal(n)[..j];
    LengthRead(n, j);
    ReturnDropped(line);
    hide Decimal, ContentLength, ReadFrom, DropReturn, LineLength;
    if end == "" {
      assert line + end == line;
      LastLine(line);
    } else if end == "\r" {
      LastLine(line + end);
    } else {
      assert line + end == (line + "\r") + "\n" + "";
      OneLine(line + "\r", "", 0, false);
      NothingLeft(n);
    }
  }

  lemma NothingLeft(n: nat)
    ensures ReadFrom("", n, true) == Reading(None, "", false)
  {
  }

  // Cut within the blank line or within the payload.
  lemma CutBlank(n: nat, body: string)
    requires body == "\r" || (2 <= |body| < 2 + n && body[..2] == "\r\n")
    ensures ReadFrom(body, n, true) == Reading(if body == "\r" && n == 0 then Some("") else None, "", false)
  {
    assert DropReturn("\r") == "";
    if body == "\r" {
      LastLine(body);
    } else {
      assert body == "\r" + "\n" + body[2..];
      OneLine("\r", body[2..], n, true);
      hide LineLength;
    }
  }

  lemma CutBody(n: nat, body: string)
    requires n <= 64 * 1024 * 1024
    requires body == "\r" || (2 <= |body| < 2 + n && body[..2] == "\r\n")
    ensures ReadFrom("Content-Length: " + Decimal(n) + "\r" + "\n" + body, 0, false)
      == Reading(if body == "\r" && n == 0 then Some("") else None, "", false)
  {
    HeaderRead(n, body);
    CutBlank(n, body);
    hide ReadFrom, Decimal;
  }

  lemma WrittenIs(payload: string) returns (head: string)
    ensures head == "Content-Length: " + Decimal(|payload|) && |head| == 16 + |Decimal(|payload|)|
    ensures head[16] == Decimal(|payload|)[0] && IsDigit(head[16])
    ensures Written(payload) == head + ("\r\n" + ("\r\n" + payload))
  {
    DecimalStarts(|payload|);
    head := "Content-Length: " + Decimal(|payload|);
  }

  lemma CutBeforeNumber(payload: string, k: nat)
    requires |payload| <= 64 * 1024 * 1024 && k <= 16
    ensures var part := Written(payload)[..k];
      ReadFrom(part, 0, false) == Reading(None, "", LacksNumber(part)) && !LacksNewline(part)
  {
    var head := WrittenIs(payload);
    var part := Written(payload)[..k];
    assert part == "Content-Length: "[..k];
    if k < |HEADER| {
      assert part == HEADER[..k];
      ShortHeader(part);
    } else {
      assert part == HEADER || part == HEADER + " ";
      NoNumber(part);
    }
  }

  lemma NotWhole(part: string)
    requires |part| > 16
    ensures !LacksNumber(part)
    ensures |part| < 20 || part[19] != '\r' ==> !LacksNewline(part)
  {
  }

  lemma CutInHeader(payload: string, k: nat)
    requires |payload| <= 64 * 1024 * 1024 && 16 < k <= 18 + |Decimal(|payload|)|
    ensures var part := Written(payload)[..k];
      ReadFrom(part, 0, false) == Reading(None, "", false) && !LacksNumber(part) && !LacksNewline(part)
  {
    var n := |payload|;
    var digits, part := Decimal(n), Written(payload)[..k];
    var head := WrittenIs(payload);
    DecimalDigits(n);
    NotWhole(part);
    hide Written, LacksNumber, LacksNewline, ReadFrom, Decimal;
    if k <= |head| {
      assert part == "Content-Length: " + digits[..k - 16] + "";
      CutNumber(n, k - 16, "");
      assert |part| >= 20 ==> part[19] == digits[3];
    } else {
      var end := if k == |head| + 1 then "\r" else "\r\n";
      CutAt(head, payload, k, end);
      assert digits[..|digits|] == digits;
      CutNumber(n, |digits|, end);
      HeaderIsLine(digits, end);
    }
  }

  lemma CutAt(head: string, payload: string, k: nat, end: string)
    requires k == |head| + |end| && end <= "\r\n"
    ensures (head + ("\r\n" + ("\r\n" + payload)))[..k] == head + end
  {
  }

  lemma HeaderIsLine(digits: string, end: string)
    requires digits != "" && '\r' !in digits && '\n' !in digits && (end == "\r" || end == "\r\n")
    ensures !LacksNewline("Content-Length: " + digits + end)
  {
    var part := "Content-Length: " + digits + end;
    var tail := part[16..];
    assert tail == digits + end;
    assert LacksNewline(part) ==> tail == "0\r\n\r";
    assert |digits| >= 2 ==> (digits + end)[1] == digits[1];
  }

  lemma CutInBody(payload: string, k: nat)
    requires |payload| <= 64 * 1024 * 1024 && 18 + |Decimal(|payload|)| < k < |Written(payload)|
    ensures var part := Written(payload)[..k];
      ReadFrom(part, 0, false) == Reading(if LacksNewline(part) then Some("") else None, "", false) && !LacksNumber(part)
  {
    var n := |payload|;
    var head := WrittenIs(payload);
    var part, body := Written(payload)[..k], ("\r\n" + payload)[..k - |head| - 2];
    assert part == head + "\r" + "\n" + body;
    assert k == |head| + 3 ==> body == "\r";
    assert k > |head| + 3 ==> body[..2] == "\r\n";
    assert body[0] == '\r' && (|body| >= 2 ==> body[1] == '\n');
    hide Written, LacksNewline, LacksNumber, Decimal;
    CutBody(n, body);
    EmptyCut(n, part, body);
  }

  lemma CutReads(payload: string, k: nat)
    requires |payload| <= 64 * 1024 * 1024 && k < |Written(payload)|
    ensures var part := Written(payload)[..k];
      ReadFrom(part, 0, false) == Reading(if LacksNewline(part) then Some("") else None, "", LacksNumber(part))
  {
    hide Written, LacksNewline, LacksNumber, Decimal, ReadFrom;
    if k <= 16 {
      CutBeforeNumber(payload, k);
    } else if k <= 18 + |Decimal(|payload|)| {
      CutInHeader(payload, k);
    } else {
      CutInBody(payload, k);
    }
  }

  lemma EmptyCut(n: nat, part: string, body: string)
    requires part == "Content-Length: " + Decimal(n) + "\r" + "\n" + body && body != ""
    requires body[0] == '\r' && (|body| >= 2 ==> body[1] == '\n')
    ensures LacksNewline(part) <==> body == "\r" && n == 0
    ensures !LacksNumber(part)
  {
    DecimalStarts(n);
    DecimalDigits(n);
    assert Decimal(0) == "0";
    if n == 0 && body == "\r" {
      assert part == "Content-Length: 0\r\n\r";
    }
    if LacksNewline(part) {
      assert |Decimal(n)| + |body| == 2;
      assert part[16] == Decimal(n)[0] && part[16] == '0';
      OneDigit(n);
    }
  }

  lemma OneDigit(n: nat)
    ensures |Decimal(n)| == 1 ==> n < 10 && Decimal(n)[0] == '0' + n as char
  {
    if n >= 10 { DecimalStarts(n / 10); }
  }

  // A stream of frames cut anywhere gives the frames that are whole, and one
  // empty payload more exactly when the cut took the last newline of an empty
  // frame; it reads as malformed exactly when cut before a frame's number.
  lemma {:induction false} CutAnywhere(payloads: seq<string>, k: nat) returns (whole: nat, part: string)
    requires (forall p :: p in payloads ==> |p| <= 64 * 1024 * 1024) && k <= |AllWritten(payloads)|
    ensures whole <= |payloads| && AllWritten(payloads)[..k] == AllWritten(payloads[..whole]) + part
    ensures whole == |payloads| ==> part == ""
    ensures whole < |payloads| ==> part < Written(payloads[whole])
    ensures ReadAll(AllWritten(payloads)[..k])
      == (payloads[..whole] + (if LacksNewline(part) then [""] else []), LacksNumber(part))
  {
    hide *;
    if payloads == [] {
      whole, part := 0, "";
      NothingCut();
      NoneWritten();
      ReadAllOf("");
    } else {
      var first := Written(payloads[0]);
      FirstWritten(payloads);
      if k >= |first| {
        whole, part := CutAnywhere(payloads[1..], k - |first|);
        CutLater(payloads, k, whole, part);
        whole := whole + 1;
      } else {
        whole, part := 0, first[..k];
        CutReads(payloads[0], k);
        CutAlone(part);
        CutFirst(payloads, k);
      }
    }
  }

  lemma NoneWritten()
    ensures AllWritten([]) == ""
  {
  }

  lemma FirstWritten(payloads: seq<string>)
    requires payloads != []
    ensures AllWritten(payloads) == Written(payloads[0]) + AllWritten(payloads[1..])
  {
  }

  // A cut within the first frame.
  lemma CutFirst(payloads: seq<string>, k: nat)
    requires payloads != [] && k < |Written(payloads[0])| <= |AllWritten(payloads)|
    ensures AllWritten(payloads)[..k] == Written(payloads[0])[..k]
    ensures AllWritten(payloads[..0]) == "" && Written(payloads[0])[..k] < Written(payloads[0])
    ensures "" + Written(payloads[0])[..k] == Written(payloads[0])[..k] && payloads[..0] + [""] == [""] && payloads[..0] + [] == []
  {
    hide Written;
  }

  // A cut behind the first frame is a cut of the frames after it.
  lemma CutLater(payloads: seq<string>, k: nat, whole: nat, part: string)
    requires payloads != [] && |payloads[0]| <= 64 * 1024 * 1024 && |Written(payloads[0])| <= k <= |AllWritten(payloads)|
    requires whole < |payloads|
    requires var rest := payloads[1..]; var j := k - |Written(payloads[0])|;
      && j <= |AllWritten(rest)| && AllWritten(rest)[..j] == AllWritten(rest[..whole]) + part
      && ReadAll(AllWritten(rest)[..j]) == (rest[..whole] + (if LacksNewline(part) then [""] else []), LacksNumber(part))
    ensures AllWritten(payloads)[..k] == AllWritten(payloads[..whole + 1]) + part
    ensures ReadAll(AllWritten(payloads)[..k])
      == (payloads[..whole + 1] + (if LacksNewline(part) then [""] else []), LacksNumber(part))
  {
    hide *;
    var first, rest := Written(payloads[0]), payloads[1..];
    var tail := AllWritten(rest)[..k - |first|];
    FirstWritten(payloads);
    assert AllWritten(payloads)[..k] == first + tail;
    WrittenReads(payloads[0], tail);
    ReadAllOf(first + tail);
    var heads := payloads[..whole + 1];
    FirstWritten(heads);
    assert heads[1..] == rest[..whole] && heads == [payloads[0]] + rest[..whole];
    Joined(payloads[0], rest[..whole], if LacksNewline(part) then [""] else []);
  }

  lemma Joined(p: string, a: seq<string>, b: seq<string>)
    ensures [p] + (a + b) == [p] + a + b && [] + b == b
  {
  }

  lemma NotBoth(part: string)
    ensures LacksNewline(part) ==> !LacksNumber(part)
  {
  }

  lemma CutAlone(part: string)
    requires ReadFrom(part, 0, false) == Reading(if LacksNewline(part) then Some("") else None, "", LacksNumber(part))
    ensures ReadAll(part) == (if LacksNewline(part) then [""] else [], LacksNumber(part))
  {
    NotBoth(part);
    NothingCut();
    ReadAllOf(part);
    ReadAllOf("");
    assert [""] + [] == [""];
    hide ReadFrom, ReadAll, LacksNewline, LacksNumber;
  }

  lemma NothingCut()
    ensures !LacksNewline("") && !LacksNumber("") && ReadFrom("", 0, false) == Reading(None, "", false)
  {
  }

  lemma ReadAllOf(s: string)
    ensures var r := ReadFrom(s, 0, false);
      ReadAll(s) == if r.payload.None? then ([], r.failed) else ([r.payload.value] + ReadAll(r.rest).0, ReadAll(r.rest).1)
  {
  }

  // The empty frame, cut before its last newline, is read all the same; cut
  // after the header's name, it reads as malformed.
  lemma CutsMisread()
    ensures "Content-Length: 0\r\n\r" < Written("") && ReadAll("Content-Length: 0\r\n\r") == ([""], false)
    ensures HEADER < Written("") && ReadAll(HEADER) == ([], true)
  {
    EmptyWritten();
    var line := "Content-Length: 0\r\n\r";
    assert Written("")[..|line|] == line && Written("")[..|HEADER|] == HEADER;
    CutReads("", |line|);
    CutReads("", |HEADER|);
    hide Written, ReadFrom, ReadAll;
    CutAlone(line);
    CutAlone(HEADER);
  }

  lemma EmptyWritten()
    ensures Written("") == "Content-Length: 0\r\n\r\n"
  {
    assert Decimal(0) == "0";
  }
}
