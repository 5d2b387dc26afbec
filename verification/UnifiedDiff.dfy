/** The unified-diff text of extension/src/ai/lineDiff.ts, and a reader that
    applies such a text to the old lines by its header counts. */
module UnifiedDiff {
  import opened LineDiff
  import opened Texts
  import opened Wrappers

  // ----- lines --------------------------------------------------------------

  // The pieces of a text between its newlines.
  function Split(text: string): (lines: seq<string>)
    ensures |lines| > 0
    ensures forall i :: 0 <= i < |lines| ==> '\n' !in lines[i]
  {
    if text == "" then [""]
    else
      var rest := Split(text[1..]);
      if text[0] == '\n' then [""] + rest
      else [[text[0]] + rest[0]] + rest[1..]
  }

  // A text's lines, without an empty one after a final newline.
  function SplitLines(text: string): (lines: seq<string>)
    ensures forall i :: 0 <= i < |lines| ==> '\n' !in lines[i]
  {
    if text == "" then []
    else
      var lines := Split(text);
      if lines[|lines| - 1] == "" then lines[..|lines| - 1] else lines
  }

  function Join(lines: seq<string>): string {
    if lines == [] then ""
    else if |lines| == 1 then lines[0]
    else lines[0] + "\n" + Join(lines[1..])
  }

  lemma {:induction false} SplitFirst(line: string, text: string)
    requires '\n' !in line
    ensures Split(line + "\n" + text) == [line] + Split(text)
    ensures Split(line) == [line]
  {
    if line == "" {
      assert line + "\n" + text == "\n" + text;
    } else {
      SplitFirst(line[1..], text);
      assert (line + "\n" + text)[1..] == line[1..] + "\n" + text;
      assert [line[0]] + line[1..] == line;
    }
  }

  lemma {:induction false} SplitJoin(lines: seq<string>)
    requires lines != [] && forall i :: 0 <= i < |lines| ==> '\n' !in lines[i]
    ensures Split(Join(lines)) == lines
  {
    if |lines| == 1 {
      SplitFirst(lines[0], "");
    } else {
      SplitJoin(lines[1..]);
      SplitFirst(lines[0], Join(lines[1..]));
    }
  }

  lemma {:induction false} JoinMore(lines: seq<string>, last: string)
    requires lines != []
    ensures Join(lines + [last]) == Join(lines) + "\n" + last
  {
    if |lines| > 1 {
      JoinMore(lines[1..], last);
      assert (lines + [last])[1..] == lines[1..] + [last];
    }
  }

  // What a text's lines are: one line less than its pieces exactly when the
  // text ends in a newline, whatever that last line holds.
  lemma LinesOfText(lines: seq<string>)
    requires lines != [] && forall i :: 0 <= i < |lines| ==> '\n' !in lines[i]
    ensures SplitLines(Join(lines) + "\n") == lines
    ensures lines[|lines| - 1] != "" ==> SplitLines(Join(lines)) == lines
    ensures SplitLines("") == []
  {
    SplitJoin(lines);
    SplitJoin(lines + [""]);
    JoinMore(lines, "");
    assert Join(lines) + "\n" + "" == Join(lines) + "\n";
  }

  lemma JoinNonEmpty(lines: seq<string>)
    requires lines != [] && lines[0] != ""
    ensures Join(lines) != ""
  {
  }

  // ----- hunk headers -------------------------------------------------------

  datatype Header = Header(oldStart: nat, oldCount: nat, newStart: nat, newCount: nat)

  function RenderHeader(h: Header): string {
    "@@ -" + Decimal(h.oldStart) + "," + Decimal(h.oldCount)
    + " +" + Decimal(h.newStart) + "," + Decimal(h.newCount) + " @@"
  }

  function Expect(text: string, literal: string): Option<string> {
    if literal <= text then Some(text[|literal|..]) else None
  }

  // A literal followed by a number.
  function ReadField(text: string, literal: string): Option<(nat, string)> {
    match Expect(text, literal)
    case None => None
    case Some(rest) =>
      if rest == "" || !IsDigit(rest[0]) then None else Some(ReadDigits(rest, 0))
  }

  function ReadHeader(text: string): Option<Header> {
    match ReadField(text, "@@ -")
    case None => None
    case Some((oldStart, rest)) =>
      match ReadField(rest, ",")
      case None => None
      case Some((oldCount, rest)) =>
        match ReadField(rest, " +")
        case None => None
        case Some((newStart, rest)) =>
          match ReadField(rest, ",")
          case None => None
          case Some((newCount, rest)) =>
            if rest == " @@" then Some(Header(oldStart, oldCount, newStart, newCount)) else None
  }

  lemma FieldRead(literal: string, n: nat, rest: string)
    requires rest != "" && !IsDigit(rest[0])
    ensures ReadField(literal + Decimal(n) + rest, literal) == Some((n, rest))
  {
    DecimalStarts(n);
    ReadDecimal(n, rest);
    assert (literal + Decimal(n) + rest)[|literal|..] == Decimal(n) + rest;
  }

  lemma HeaderText(h: Header, rest: string)
    requires rest == "," + Decimal(h.oldCount) + (" +" + Decimal(h.newStart) + ("," + Decimal(h.newCount) + " @@"))
    ensures RenderHeader(h) == "@@ -" + Decimal(h.oldStart) + rest
  {
    hide Decimal;
  }

  lemma HeaderRoundTrip(h: Header)
    ensures ReadHeader(RenderHeader(h)) == Some(h)
  {
    var r4 := " @@";
    var r3 := "," + Decimal(h.newCount) + r4;
    var r2 := " +" + Decimal(h.newStart) + r3;
    var r1 := "," + Decimal(h.oldCount) + r2;
    hide ReadField, RenderHeader, Decimal;
    assert ReadField(RenderHeader(h), "@@ -") == Some((h.oldStart, r1)) by {
      HeaderText(h, r1);
      FieldRead("@@ -", h.oldStart, r1);
    }
    assert ReadField(r1, ",") == Some((h.oldCount, r2)) by { FieldRead(",", h.oldCount, r2); }
    assert ReadField(r2, " +") == Some((h.newStart, r3)) by { FieldRead(" +", h.newStart, r3); }
    assert ReadField(r3, ",") == Some((h.newCount, r4)) by { FieldRead(",", h.newCount, r4); }
  }

  lemma HeaderIsOneLine(h: Header)
    ensures '\n' !in RenderHeader(h) && RenderHeader(h) != ""
  {
    ReadDecimal(h.oldStart, "");
    ReadDecimal(h.oldCount, "");
    ReadDecimal(h.newStart, "");
    ReadDecimal(h.newCount, "");
  }

  // ----- hunk bodies --------------------------------------------------------

  function KindChar(kind: Kind): char {
    match kind case Keep => ' ' case Delete => '-' case Insert => '+'
  }

  function RenderBody(body: seq<Op<string>>): (lines: seq<string>)
    ensures |lines| == |body|
  {
    if body == [] then [] else [[KindChar(body[0].kind)] + body[0].line] + RenderBody(body[1..])
  }

  function ReadOp(line: string): Option<Op<string>> {
    if line == "" then None
    else if line[0] == ' ' then Some(Op(Keep, line[1..]))
    else if line[0] == '-' then Some(Op(Delete, line[1..]))
    else if line[0] == '+' then Some(Op(Insert, line[1..]))
    else None
  }

  // Reads body lines until the header's counts are used up.
  function ReadBody(lines: seq<string>, oldCount: nat, newCount: nat): Option<(seq<Op<string>>, seq<string>)>
    decreases |lines|
  {
    if oldCount == 0 && newCount == 0 then Some(([], lines))
    else if lines == [] then None
    else
      match ReadOp(lines[0])
      case None => None
      case Some(op) =>
        if (op.kind != Insert && oldCount == 0) || (op.kind != Delete && newCount == 0) then None
        else
          match ReadBody(lines[1..], if op.kind == Insert then oldCount else oldCount - 1,
                         if op.kind == Delete then newCount else newCount - 1)
          case None => None
          case Some((body, rest)) => Some(([op] + body, rest))
  }

  lemma {:induction false} BodyRoundTrip(body: seq<Op<string>>, rest: seq<string>)
    ensures ReadBody(RenderBody(body) + rest, |OldSide(body)|, |NewSide(body)|) == Some((body, rest))
  {
    if body == [] {
      assert RenderBody(body) + rest == rest;
    } else {
      BodyRoundTrip(body[1..], rest);
      var lines := RenderBody(body) + rest;
      assert lines[0] == [KindChar(body[0].kind)] + body[0].line;
      assert lines[0][1..] == body[0].line;
      assert ReadOp(lines[0]) == Some(body[0]);
      assert [body[0]] + body[1..] == body;
      assert lines[1..] == RenderBody(body[1..]) + rest;
    }
  }

  // ----- applying a diff ----------------------------------------------------

  // Applies the rest of a diff to the old lines from `pos`, `made` new lines
  // being out already. A header with a zero count names the line before.
  function Apply(diff: seq<string>, src: seq<string>, pos: nat, made: nat): Option<seq<string>>
    requires pos <= |src|
    decreases |diff|
  {
    if diff == [] then Some(src[pos..])
    else
      match ReadHeader(diff[0])
      case None => None
      case Some(h) =>
        var from: int := if h.oldCount == 0 then h.oldStart else h.oldStart - 1;
        var newFrom: int := if h.newCount == 0 then h.newStart else h.newStart - 1;
        if !(pos <= from && from + h.oldCount <= |src| && newFrom == made + (from - pos)) then None
        else
          match ReadBody(diff[1..], h.oldCount, h.newCount)
          case None => None
          case Some((body, rest)) =>
            if OldSide(body) != src[from..from + h.oldCount] || |rest| >= |diff| then None
            else
              match Apply(rest, src, from + h.oldCount, newFrom + h.newCount)
              case None => None
              case Some(tail) => Some(src[pos..from] + NewSide(body) + tail)
  }

  function ApplyText(diff: string, src: seq<string>): Option<seq<string>> {
    Apply(SplitLines(diff), src, 0, 0)
  }

  // ----- hunks --------------------------------------------------------------

  // A hunk as the range of operations it shows.
  datatype Range = Range(start: nat, stop: nat)

  predicate Changed(ops: seq<Op<string>>, i: int) {
    0 <= i < |ops| && ops[i].kind != Keep
  }

  function HeaderOf(ops: seq<Op<string>>, r: Range): Header
    requires r.start <= r.stop <= |ops|
  {
    var oldCount, newCount := |OldSide(ops[r.start..r.stop])|, |NewSide(ops[r.start..r.stop])|;
    var oldStart, newStart := 1 + |OldSide(ops[..r.start])|, 1 + |NewSide(ops[..r.start])|;
    Header(if oldCount == 0 then oldStart - 1 else oldStart, oldCount,
           if newCount == 0 then newStart - 1 else newStart, newCount)
  }

  ghost predicate InBounds(ops: seq<Op<string>>, ranges: seq<Range>) {
    forall h :: 0 <= h < |ranges| ==> ranges[h].start < ranges[h].stop <= |ops|
  }

  function RenderHunk(ops: seq<Op<string>>, r: Range): seq<string>
    requires r.start <= r.stop <= |ops|
  {
    [RenderHeader(HeaderOf(ops, r))] + RenderBody(ops[r.start..r.stop])
  }

  function Render(ops: seq<Op<string>>, ranges: seq<Range>): seq<string>
    requires InBounds(ops, ranges)
  {
    if ranges == [] then []
    else RenderHunk(ops, ranges[0]) + Render(ops, ranges[1..])
  }

  // Hunks in order and disjoint from operation i on, with every change from
  // there inside one of them.
  ghost predicate Cover(ops: seq<Op<string>>, ranges: seq<Range>, i: nat) {
    if ranges == [] then forall j :: i <= j < |ops| ==> !Changed(ops, j)
    else
      && i <= ranges[0].start < ranges[0].stop <= |ops|
      && (forall j :: i <= j < ranges[0].start ==> !Changed(ops, j))
      && Cover(ops, ranges[1..], ranges[0].stop)
  }

  lemma {:induction false} KeptSides(ops: seq<Op<string>>)
    requires forall j :: 0 <= j < |ops| ==> !Changed(ops, j)
    ensures OldSide(ops) == NewSide(ops)
  {
    if ops != [] {
      assert forall j :: 0 <= j < |ops[1..]| ==> Changed(ops[1..], j) == Changed(ops, j + 1);
      assert !Changed(ops, 0);
      KeptSides(ops[1..]);
    }
  }

  lemma SidesJoin(p: seq<Op<string>>, q: seq<Op<string>>, whole: seq<Op<string>>)
    requires whole == p + q
    ensures OldSide(whole) == OldSide(p) + OldSide(q)
    ensures NewSide(whole) == NewSide(p) + NewSide(q)
  {
    SidesAppend(p, q);
  }

  lemma SidesSplit(ops: seq<Op<string>>, i: nat, j: nat)
    requires i <= j <= |ops|
    ensures OldSide(ops[..j]) == OldSide(ops[..i]) + OldSide(ops[i..j])
    ensures NewSide(ops[..j]) == NewSide(ops[..i]) + NewSide(ops[i..j])
  {
    SidesJoin(ops[..i], ops[i..j], ops[..j]);
  }

  lemma SidesRest(ops: seq<Op<string>>, i: nat, j: nat)
    requires i <= j <= |ops|
    ensures OldSide(ops[i..]) == OldSide(ops[i..j]) + OldSide(ops[j..])
    ensures NewSide(ops[i..]) == NewSide(ops[i..j]) + NewSide(ops[j..])
  {
    SidesJoin(ops[i..j], ops[j..], ops[i..]);
  }

  lemma SidesWhole(ops: seq<Op<string>>, i: nat)
    requires i <= |ops|
    ensures OldSide(ops) == OldSide(ops[..i]) + OldSide(ops[i..])
    ensures NewSide(ops) == NewSide(ops[..i]) + NewSide(ops[i..])
  {
    SidesJoin(ops[..i], ops[i..], ops);
  }

  lemma CoverInBounds(ops: seq<Op<string>>, ranges: seq<Range>, i: nat)
    requires Cover(ops, ranges, i)
    ensures InBounds(ops, ranges)
    decreases |ranges|
  {
    if ranges != [] {
      CoverInBounds(ops, ranges[1..], ranges[0].stop);
      forall h | 0 <= h < |ranges|
        ensures ranges[h].start < ranges[h].stop <= |ops|
      {
        if h > 0 { assert ranges[h] == ranges[1..][h - 1]; }
      }
    }
  }

  // Between hunks the two sides run alike.
  lemma GapKept(ops: seq<Op<string>>, i: nat, j: nat)
    requires i <= j <= |ops|
    requires forall p :: i <= p < j ==> !Changed(ops, p)
    ensures |OldSide(ops[..i])| <= |OldSide(ops[..j])| <= |OldSide(ops)|
    ensures |NewSide(ops[..j])| == |NewSide(ops[..i])| + (|OldSide(ops[..j])| - |OldSide(ops[..i])|)
    ensures OldSide(ops)[|OldSide(ops[..i])|..|OldSide(ops[..j])|] == NewSide(ops[i..j])
  {
    SidesSplit(ops, i, j);
    SidesWhole(ops, j);
    forall p | 0 <= p < |ops[i..j]| ensures !Changed(ops[i..j], p) {
      assert !Changed(ops, i + p);
    }
    KeptSides(ops[i..j]);
  }

  lemma HunkThenRest(ops: seq<Op<string>>, r: Range, rest: seq<string>, i: nat)
    requires i <= r.start < r.stop <= |ops|
    requires forall p :: i <= p < r.start ==> !Changed(ops, p)
    requires |OldSide(ops[..r.stop])| <= |OldSide(ops)|
    requires Apply(rest, OldSide(ops), |OldSide(ops[..r.stop])|, |NewSide(ops[..r.stop])|) == Some(NewSide(ops[r.stop..]))
    ensures |OldSide(ops[..i])| <= |OldSide(ops)|
    ensures Apply(RenderHunk(ops, r) + rest, OldSide(ops), |OldSide(ops[..i])|, |NewSide(ops[..i])|) == Some(NewSide(ops[i..]))
  {
    hide Apply, RenderHunk, OldSide, NewSide, Changed;
    GapKept(ops, i, r.start);
    SidesRest(ops, i, r.start);
    SidesRest(ops, r.start, r.stop);
    HunkApplies(ops, r, rest, |OldSide(ops[..i])|, |NewSide(ops[..i])|);
    var gap, body, tail := NewSide(ops[i..r.start]), NewSide(ops[r.start..r.stop]), NewSide(ops[r.stop..]);
    assert gap + body + tail == gap + (body + tail);
  }

  // Applying the hunks of a cover to the old side gives the new side.
  lemma {:induction false} HunksApply(ops: seq<Op<string>>, ranges: seq<Range>, i: nat)
    requires i <= |ops| && Cover(ops, ranges, i) && InBounds(ops, ranges)
    ensures |OldSide(ops[..i])| <= |OldSide(ops)|
    ensures Apply(Render(ops, ranges), OldSide(ops), |OldSide(ops[..i])|, |NewSide(ops[..i])|) == Some(NewSide(ops[i..]))
    decreases |ranges|
  {
    hide OldSide, NewSide, RenderHunk, Changed;
    if ranges == [] {
      GapKept(ops, i, |ops|);
      assert ops[..|ops|] == ops && ops[i..|ops|] == ops[i..];
      var src, pos := OldSide(ops), |OldSide(ops[..i])|;
      assert src[pos..] == src[pos..|src|];
    } else {
      var r := ranges[0];
      CoverInBounds(ops, ranges[1..], r.stop);
      HunksApply(ops, ranges[1..], r.stop);
      HunkThenRest(ops, r, Render(ops, ranges[1..]), i);
    }
  }

  // One hunk: the reader gets the header and body back and finds the old
  // lines where the header says.
  lemma HunkApplies(ops: seq<Op<string>>, r: Range, rest: seq<string>, pos: nat, made: nat)
    requires r.start < r.stop <= |ops|
    requires pos <= |OldSide(ops[..r.start])| <= |OldSide(ops)|
    requires |OldSide(ops[..r.stop])| <= |OldSide(ops)|
    requires |NewSide(ops[..r.start])| == made + (|OldSide(ops[..r.start])| - pos)
    ensures
      var src := OldSide(ops);
      var from := |OldSide(ops[..r.start])|;
      var tail := Apply(rest, src, |OldSide(ops[..r.stop])|, |NewSide(ops[..r.stop])|);
      Apply(RenderHunk(ops, r) + rest, src, pos, made)
      == if tail.None? then None
         else Some(src[pos..from] + NewSide(ops[r.start..r.stop]) + tail.value)
  {
    hide ReadHeader, ReadBody, RenderHeader, RenderBody, OldSide, NewSide;
    var src := OldSide(ops);
    var body := ops[r.start..r.stop];
    var h := HeaderOf(ops, r);
    var diff := RenderHunk(ops, r) + rest;
    HeaderRoundTrip(h);
    BodyRoundTrip(body, rest);
    assert diff[0] == RenderHeader(h);
    assert diff[1..] == RenderBody(body) + rest;
    SidesSplit(ops, r.start, r.stop);
    SidesWhole(ops, r.stop);
    var from := |OldSide(ops[..r.start])|;
    assert OldSide(body) == src[from..from + h.oldCount];
  }

  // ----- cutting the hunks --------------------------------------------------

  // A hunk reaches from `context` lines before its first change to `context`
  // lines after its last, and no gap inside it is over 2 * context lines.
  ghost predicate WellCut(ops: seq<Op<string>>, r: Range, context: nat) {
    exists first, last ::
      && r.start <= first <= last < r.stop && Changed(ops, first) && Changed(ops, last)
      && r.start == (if first < context then 0 else first - context)
      && r.stop == (if last + context + 1 < |ops| then last + context + 1 else |ops|)
      && (forall j :: r.start <= j < first || last < j < r.stop ==> !Changed(ops, j))
      && Dense(ops, first, last, 2 * context)
  }

  ghost predicate Dense(ops: seq<Op<string>>, first: nat, last: nat, span: nat) {
    forall p :: first <= p <= last - span ==> ChangeWithin(ops, p, span)
  }

  ghost predicate ChangeWithin(ops: seq<Op<string>>, p: int, span: int) {
    exists j :: p <= j <= p + span && Changed(ops, j)
  }

  // No change lies within `context` lines after a hunk.
  ghost predicate Quiet(ops: seq<Op<string>>, stop: nat, context: nat) {
    forall j :: stop <= j && Changed(ops, j) ==> stop + context < j
  }

  // The hunks so far, built from the back: order, disjointness and coverage
  // of the changes before i.
  ghost predicate CoverUpTo(ops: seq<Op<string>>, ranges: seq<Range>, i: nat)
    decreases |ranges|
  {
    if ranges == [] then forall j :: 0 <= j < i ==> !Changed(ops, j)
    else
      var r := ranges[|ranges| - 1];
      && r.start < r.stop <= |ops| && r.stop <= i
      && (forall j :: r.stop <= j < i ==> !Changed(ops, j))
      && CoverUpTo(ops, ranges[..|ranges| - 1], r.start)
  }

  lemma {:induction false} CoverFromUpTo(ops: seq<Op<string>>, done: seq<Range>, rest: seq<Range>, i: nat)
    requires CoverUpTo(ops, done, i) && Cover(ops, rest, i)
    ensures Cover(ops, done + rest, 0)
    decreases |done|
  {
    if done == [] {
      assert done + rest == rest;
      CoverEarlier(ops, rest, 0, i);
    } else {
      var r := done[|done| - 1];
      CoverEarlier(ops, rest, r.stop, i);
      var longer := [r] + rest;
      assert longer[1..] == rest;
      CoverFromUpTo(ops, done[..|done| - 1], longer, r.start);
      assert done[..|done| - 1] + longer == done + rest;
    }
  }

  lemma CoverEarlier(ops: seq<Op<string>>, ranges: seq<Range>, i: nat, j: nat)
    requires i <= j && Cover(ops, ranges, j)
    requires forall p :: i <= p < j ==> !Changed(ops, p)
    ensures Cover(ops, ranges, i)
  {
  }

  lemma {:induction false} RenderPush(ops: seq<Op<string>>, ranges: seq<Range>, r: Range)
    requires InBounds(ops, ranges) && r.start < r.stop <= |ops|
    ensures InBounds(ops, ranges + [r])
    ensures Render(ops, ranges + [r]) == Render(ops, ranges) + RenderHunk(ops, r)
  {
    hide RenderHunk;
    if ranges == [] {
      assert ranges + [r] == [r] && [r][1..] == [];
    } else {
      RenderPush(ops, ranges[1..], r);
      assert (ranges + [r])[1..] == ranges[1..] + [r];
    }
  }

  // The header and body lines of one hunk.
  lemma OneRendered(body: seq<Op<string>>, j: nat)
    requires j < |body|
    ensures RenderBody(body[j..]) == [[KindChar(body[j].kind)] + body[j].line] + RenderBody(body[j + 1..])
  {
    assert body[j..][1..] == body[j + 1..];
  }

  lemma OneCounted(ops: seq<Op<string>>, j: nat)
    requires j < |ops|
    ensures |OldSide(ops[..j + 1])| == |OldSide(ops[..j])| + if ops[j].kind != Insert then 1 else 0
    ensures |NewSide(ops[..j + 1])| == |NewSide(ops[..j])| + if ops[j].kind != Delete then 1 else 0
  {
    assert ops[..j + 1] == ops[..j] + [ops[j]];
    SidesAppend(ops[..j], [ops[j]]);
  }

  method HunkLines(ops: seq<Op<string>>, startIndex: nat, stop: nat) returns (out: seq<string>)
    requires startIndex < stop <= |ops|
    ensures out == RenderHunk(ops, Range(startIndex, stop))
  {
    var oldStart, newStart := 1, 1;
    var j := 0;
    while j < startIndex
      invariant 0 <= j <= startIndex
      invariant oldStart == 1 + |OldSide(ops[..j])| && newStart == 1 + |NewSide(ops[..j])|
    {
      hide OldSide, NewSide;
      OneCounted(ops, j);
      if ops[j].kind != Insert { oldStart := oldStart + 1; }
      if ops[j].kind != Delete { newStart := newStart + 1; }
      j := j + 1;
    }
    hide OldSide, NewSide, RenderHeader, RenderBody;
    var body := ops[startIndex..stop];
    var oldLines, newLines := |OldSide(body)|, |NewSide(body)|;
    out := [RenderHeader(Header(if oldLines == 0 then oldStart - 1 else oldStart, oldLines,
                                if newLines == 0 then newStart - 1 else newStart, newLines))];
    ghost var header := out;
    j := 0;
    while j < |body|
      invariant 0 <= j <= |body|
      invariant out + RenderBody(body[j..]) == header + RenderBody(body)
    {
      OneRendered(body, j);
      out := out + [[KindChar(body[j].kind)] + body[j].line];
      j := j + 1;
    }
  }

  // The last change of the hunk that starts with the change at i.
  method LastChange(ops: seq<Op<string>>, i: nat, context: nat) returns (lastChange: nat)
    requires Changed(ops, i)
    ensures i <= lastChange && Changed(ops, lastChange)
    ensures Dense(ops, i, lastChange, 2 * context)
    ensures forall j :: lastChange < j <= lastChange + 2 * context + 1 ==> !Changed(ops, j)
  {
    var end := i;
    lastChange := i;
    assert ChangeWithin(ops, i, 2 * context);
    while end < |ops|
      invariant i <= lastChange < |ops| && lastChange <= end <= |ops|
      invariant Changed(ops, lastChange) && end - lastChange <= 2 * context + 1
      invariant forall j :: lastChange < j < end ==> !Changed(ops, j)
      invariant Dense(ops, i, lastChange, 2 * context)
    {
      if ops[end].kind != Keep {
        DenseExtends(ops, i, lastChange, end, 2 * context);
        lastChange := end;
      } else if end - lastChange > 2 * context {
        break;
      }
      end := end + 1;
    }
  }

  lemma DenseExtends(ops: seq<Op<string>>, first: nat, last: nat, end: nat, span: nat)
    requires first <= last <= end <= last + span + 1
    requires Changed(ops, last) && Changed(ops, end) && Dense(ops, first, last, span)
    ensures Dense(ops, first, end, span)
  {
    forall p | first <= p <= end - span
      ensures ChangeWithin(ops, p, span)
    {
      if last < p + span {
        assert Changed(ops, if p <= last then last else end);
      }
    }
  }

  // What the cutter holds at operation i.
  ghost predicate Progress(ops: seq<Op<string>>, ranges: seq<Range>, i: nat, context: nat) {
    && CoverUpTo(ops, ranges, i) && InBounds(ops, ranges)
    && (ranges != [] ==> ranges[|ranges| - 1].stop <= i)
    && forall h :: 0 <= h < |ranges| ==> WellCut(ops, ranges[h], context) && Quiet(ops, ranges[h].stop, context)
  }

  lemma CoverPush(ops: seq<Op<string>>, ranges: seq<Range>, r: Range)
    requires r.start < r.stop <= |ops| && CoverUpTo(ops, ranges, r.start)
    ensures CoverUpTo(ops, ranges + [r], r.stop)
  {
    assert (ranges + [r])[..|ranges|] == ranges;
  }

  lemma HunkAdded(ops: seq<Op<string>>, ranges: seq<Range>, i: nat, r: Range, last: nat, context: nat)
    requires Progress(ops, ranges, i, context) && i <= last
    requires Changed(ops, i) && Changed(ops, last) && Dense(ops, i, last, 2 * context)
    requires r.start == (if i < context then 0 else i - context)
    requires r.stop == (if last + context + 1 < |ops| then last + context + 1 else |ops|)
    requires forall j :: last < j <= last + 2 * context + 1 ==> !Changed(ops, j)
    ensures Progress(ops, ranges + [r], r.stop, context)
  {
    hide WellCut, Quiet, Dense, Changed, CoverUpTo;
    StartsAfter(ops, ranges, i, r.start, context);
    HunkIsWellCut(ops, r, i, last, context);
    CoverPush(ops, ranges, r);
  }

  lemma KeptPassed(ops: seq<Op<string>>, ranges: seq<Range>, i: nat, context: nat)
    requires Progress(ops, ranges, i, context) && !Changed(ops, i)
    ensures Progress(ops, ranges, i + 1, context)
  {
  }

  lemma Finished(ops: seq<Op<string>>, ranges: seq<Range>, context: nat)
    requires Progress(ops, ranges, |ops|, context)
    ensures Cover(ops, ranges, 0) && InBounds(ops, ranges)
    ensures forall h :: 0 <= h < |ranges| ==> WellCut(ops, ranges[h], context) && Quiet(ops, ranges[h].stop, context)
  {
    CoverFromUpTo(ops, ranges, [], |ops|);
    assert ranges + [] == ranges;
  }

  method CutHunks(ops: seq<Op<string>>, context: nat) returns (out: seq<string>, ranges: seq<Range>)
    ensures Cover(ops, ranges, 0) && InBounds(ops, ranges)
    ensures out == Render(ops, ranges)
    ensures forall h :: 0 <= h < |ranges| ==> WellCut(ops, ranges[h], context) && Quiet(ops, ranges[h].stop, context)
  {
    out := [];
    ranges := [];
    var i := 0;
    assert Progress(ops, ranges, i, context);
    hide Progress, Render, RenderHunk, RenderBody, RenderHeader;
    while i < |ops|
      invariant 0 <= i <= |ops|
      invariant InBounds(ops, ranges) && Progress(ops, ranges, i, context)
      invariant out == Render(ops, ranges)
      decreases |ops| - i
    {
      if ops[i].kind == Keep {
        KeptPassed(ops, ranges, i, context);
        i := i + 1;
        continue;
      }
      var startIndex := if i < context then 0 else i - context;
      var lastChange := LastChange(ops, i, context);
      var stop := if lastChange + context + 1 < |ops| then lastChange + context + 1 else |ops|;
      var r := Range(startIndex, stop);
      HunkAdded(ops, ranges, i, r, lastChange, context);
      RenderPush(ops, ranges, r);
      var hunk := HunkLines(ops, startIndex, stop);
      out := out + hunk;
      ranges := ranges + [r];
      i := stop;
    }
    Finished(ops, ranges, context);
  }

  // The hunk's leading context does not reach back into the one before.
  lemma StartsAfter(ops: seq<Op<string>>, ranges: seq<Range>, i: nat, startIndex: nat, context: nat)
    requires CoverUpTo(ops, ranges, i) && Changed(ops, i)
    requires startIndex == if i < context then 0 else i - context
    requires ranges != [] ==> ranges[|ranges| - 1].stop <= i && Quiet(ops, ranges[|ranges| - 1].stop, context)
    ensures CoverUpTo(ops, ranges, startIndex)
    ensures forall j :: startIndex <= j < i ==> !Changed(ops, j)
  {
  }

  lemma HunkIsWellCut(ops: seq<Op<string>>, r: Range, first: nat, last: nat, context: nat)
    requires first <= last && Changed(ops, first) && Changed(ops, last) && Dense(ops, first, last, 2 * context)
    requires r.start == (if first < context then 0 else first - context)
    requires r.stop == (if last + context + 1 < |ops| then last + context + 1 else |ops|)
    requires forall j :: r.start <= j < first ==> !Changed(ops, j)
    requires forall j :: last < j <= last + 2 * context + 1 ==> !Changed(ops, j)
    ensures WellCut(ops, r, context) && Quiet(ops, r.stop, context)
  {
  }

  predicate PlainLine(line: string) { line != "" && '\n' !in line }

  ghost predicate Plain(lines: seq<string>) {
    forall i :: 0 <= i < |lines| ==> PlainLine(lines[i])
  }

  lemma PlainAppend(p: seq<string>, q: seq<string>)
    requires Plain(p) && Plain(q)
    ensures Plain(p + q)
  {
  }

  lemma {:induction false} RenderIsPlain(ops: seq<Op<string>>, ranges: seq<Range>)
    requires InBounds(ops, ranges)
    requires forall i :: 0 <= i < |ops| ==> '\n' !in ops[i].line
    ensures Plain(Render(ops, ranges))
  {
    if ranges != [] {
      RenderIsPlain(ops, ranges[1..]);
      var r := ranges[0];
      HeaderIsOneLine(HeaderOf(ops, r));
      BodyIsPlain(ops[r.start..r.stop]);
      PlainAppend([RenderHeader(HeaderOf(ops, r))], RenderBody(ops[r.start..r.stop]));
      PlainAppend(RenderHunk(ops, r), Render(ops, ranges[1..]));
    }
  }

  lemma {:induction false} OpsAreLines(ops: seq<Op<string>>)
    requires forall i :: 0 <= i < |OldSide(ops)| ==> '\n' !in OldSide(ops)[i]
    requires forall i :: 0 <= i < |NewSide(ops)| ==> '\n' !in NewSide(ops)[i]
    ensures forall i :: 0 <= i < |ops| ==> '\n' !in ops[i].line
  {
    if ops != [] {
      var o, n := OldSide(ops[1..]), NewSide(ops[1..]);
      var dropOld, dropNew := if ops[0].kind == Insert then 0 else 1, if ops[0].kind == Delete then 0 else 1;
      assert forall i :: 0 <= i < |o| ==> o[i] == OldSide(ops)[i + dropOld];
      assert forall i :: 0 <= i < |n| ==> n[i] == NewSide(ops)[i + dropNew];
      OpsAreLines(ops[1..]);
      assert ops[0].line == if ops[0].kind == Insert then NewSide(ops)[0] else OldSide(ops)[0];
    }
  }

  lemma {:induction false} BodyIsPlain(body: seq<Op<string>>)
    requires forall i :: 0 <= i < |body| ==> '\n' !in body[i].line
    ensures Plain(RenderBody(body))
  {
    if body != [] { BodyIsPlain(body[1..]); }
  }

  // The text applies: reading it back by its header counts turns the old
  // lines into the new ones, whatever the context.
  method UnifiedDiff(before: string, after: string, context: nat) returns (text: string)
    ensures ApplyText(text, SplitLines(before)) == Some(SplitLines(after))
    ensures text == "" ==> SplitLines(before) == SplitLines(after)
    ensures SplitLines(before) == SplitLines(after) ==> text == ""
  {
    var src, dst := SplitLines(before), SplitLines(after);
    var ops := DiffLines(src, dst);
    var out, ranges := CutHunks(ops, context);
    text := Join(out);
    OpsAreLines(ops);
    RenderIsPlain(ops, ranges);
    TextReads(ops, ranges);
    if src == dst {
      EqualIsFree(src);
      EqualHasNoHunks(ops, ranges, context);
    }
  }

  lemma TextReads(ops: seq<Op<string>>, ranges: seq<Range>)
    requires Cover(ops, ranges, 0) && InBounds(ops, ranges)
    requires Plain(Render(ops, ranges))
    ensures ApplyText(Join(Render(ops, ranges)), OldSide(ops)) == Some(NewSide(ops))
    ensures Join(Render(ops, ranges)) == "" ==> OldSide(ops) == NewSide(ops)
  {
    var out := Render(ops, ranges);
    if out != [] {
      assert forall i :: 0 <= i < |out| ==> PlainLine(out[i]);
      SplitJoin(out);
      JoinNonEmpty(out);
    }
    HunksApply(ops, ranges, 0);
    assert ops[..0] == [] && ops[0..] == ops;
  }

  lemma EqualIsFree(lines: seq<string>)
    ensures Distance(lines, lines) == 0
  {
    SidesOfOps(Keep, lines);
    DistanceIsLeast(OpsOf(Keep, lines), lines, lines);
  }

  lemma {:induction false} FreeKeepsAll(ops: seq<Op<string>>)
    requires Cost(ops) == 0
    ensures forall j :: 0 <= j < |ops| ==> ops[j].kind == Keep
  {
    if ops != [] { FreeKeepsAll(ops[1..]); }
  }

  lemma NoChangeNoHunk(ops: seq<Op<string>>, r: Range, context: nat)
    requires WellCut(ops, r, context)
    ensures exists j :: 0 <= j < |ops| && ops[j].kind != Keep
  {
    var first :| Changed(ops, first);
  }

  // A diff without edits has no hunk.
  lemma EqualHasNoHunks(ops: seq<Op<string>>, ranges: seq<Range>, context: nat)
    requires InBounds(ops, ranges) && Cost(ops) == 0
    requires forall h :: 0 <= h < |ranges| ==> WellCut(ops, ranges[h], context)
    ensures Render(ops, ranges) == []
  {
    FreeKeepsAll(ops);
    if ranges != [] {
      NoChangeNoHunk(ops, ranges[0], context);
    }
  }
}
