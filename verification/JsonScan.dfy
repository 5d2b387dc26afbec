/** The two scanners that find their way through JSON text without parsing it:
    the depth guard of engine/src/rpc/dispatcher.cpp and the object extractor
    of extension/src/ai/nlQuery.ts. */
module JsonScan {
  import opened Arithmetic
  import opened Wrappers

  // ----- JSON values as they may be printed (RFC 8259, sections 2 to 7) -----

  // A character of a string: itself, or a backslash and what follows it. The
  // four digits of a \u escape are characters of the first kind.
  datatype Piece = Plain(c: char) | Escape(c: char)

  // Blanks stand wherever the grammar allows them. Numbers and the literal
  // names are texts without quotes and brackets.
  datatype Json =
    | Literal(text: string)
    | Quoted(pieces: seq<Piece>)
    | Array(blank: string, items: Items)
    | Object(blank: string, members: Members)

  datatype Items = NoItems | Item(value: Json, after: string, before: string, rest: Items)

  datatype Members = NoMembers
    | Member(name: seq<Piece>, colon: string, value: Json, after: string, before: string, rest: Members)

  predicate Special(c: char) {
    c in ['"', '[', ']', '{', '}']
  }

  predicate IsCalm(s: string) {
    forall i :: 0 <= i < |s| ==> !Special(s[i])
  }

  predicate IsPieces(pieces: seq<Piece>) {
    forall i :: 0 <= i < |pieces| ==> pieces[i].Plain? ==> pieces[i].c != '"' && pieces[i].c != '\\'
  }

  predicate IsJson(v: Json) {
    match v
    case Literal(text) => IsCalm(text)
    case Quoted(pieces) => IsPieces(pieces)
    case Array(blank, items) => IsCalm(blank) && IsItems(items)
    case Object(blank, members) => IsCalm(blank) && IsMembers(members)
  }

  predicate IsItems(items: Items) {
    items.NoItems? || (IsJson(items.value) && IsCalm(items.after) && IsCalm(items.before) && IsItems(items.rest))
  }

  // The colon carries the blanks around it.
  predicate IsMembers(members: Members) {
    members.NoMembers?
    || (IsPieces(members.name) && IsCalm(members.colon) && IsJson(members.value)
        && IsCalm(members.after) && IsCalm(members.before) && IsMembers(members.rest))
  }

  function PrintPieces(pieces: seq<Piece>): string {
    if pieces == [] then "" else
      (match pieces[0] case Plain(c) => [c] case Escape(c) => ['\\', c]) + PrintPieces(pieces[1..])
  }

  function PrintString(pieces: seq<Piece>): string {
    "\"" + PrintPieces(pieces) + "\""
  }

  function Print(v: Json): string {
    match v
    case Literal(text) => text
    case Quoted(pieces) => PrintString(pieces)
    case Array(blank, items) => "[" + (blank + PrintItems(items)) + "]"
    case Object(blank, members) => "{" + (blank + PrintMembers(members)) + "}"
  }

  function PrintItems(items: Items): string {
    match items
    case NoItems => ""
    case Item(value, after, before, rest) =>
      Print(value) + (after + (if rest.NoItems? then "" else "," + before)) + PrintItems(rest)
  }

  function PrintMembers(members: Members): string {
    match members
    case NoMembers => ""
    case Member(name, colon, value, after, before, rest) =>
      PrintString(name) + colon + Print(value) + (after + (if rest.NoMembers? then "" else "," + before)) + PrintMembers(rest)
  }

  // How deep a value nests, counting both kinds of bracket or braces only.
  function Depth(v: Json, both: bool): nat {
    match v
    case Literal(_) => 0
    case Quoted(_) => 0
    case Array(_, items) => (if both then 1 else 0) + DepthOfItems(items, both)
    case Object(_, members) => 1 + DepthOfMembers(members, both)
  }

  function DepthOfItems(items: Items, both: bool): nat {
    match items
    case NoItems => 0
    case Item(value, _, _, rest) => Max(Depth(value, both), DepthOfItems(rest, both))
  }

  function DepthOfMembers(members: Members, both: bool): nat {
    match members
    case NoMembers => 0
    case Member(_, _, value, _, _, rest) => Max(Depth(value, both), DepthOfMembers(rest, both))
  }

  // A string's characters up to its closing quote, and what follows.
  function ReadPieces(text: string): Option<(seq<Piece>, string)> {
    if text == "" then None
    else if text[0] == '"' then Some(([], text[1..]))
    else if text[0] != '\\' then
      match ReadPieces(text[1..])
      case None => None
      case Some((pieces, rest)) => Some(([Plain(text[0])] + pieces, rest))
    else if |text| == 1 then None
    else
      match ReadPieces(text[2..])
      case None => None
      case Some((pieces, rest)) => Some(([Escape(text[1])] + pieces, rest))
  }

  // A printed string is its characters between quotes.
  lemma {:induction false} StringReads(pieces: seq<Piece>, tail: string)
    requires IsPieces(pieces)
    ensures PrintString(pieces)[0] == '"' && ReadPieces((PrintString(pieces) + tail)[1..]) == Some((pieces, tail))
  {
    var text := (PrintString(pieces) + tail)[1..];
    if pieces == [] {
      assert text == "\"" + tail;
    } else {
      StringReads(pieces[1..], tail);
      var rest := (PrintString(pieces[1..]) + tail)[1..];
      var first := match pieces[0] case Plain(c) => [c] case Escape(c) => ['\\', c];
      assert text == first + rest && text[|first|..] == rest;
      assert pieces == [pieces[0]] + pieces[1..];
    }
  }

  // ----- the scan -----------------------------------------------------------

  datatype Scan = Scan(depth: int, inString: bool, escaped: bool)

  const START := Scan(0, false, false)

  function Next(s: Scan, c: char, both: bool): Scan {
    if s.inString then
      if s.escaped then s.(escaped := false)
      else if c == '\\' then s.(escaped := true)
      else if c == '"' then s.(inString := false)
      else s
    else if c == '"' then s.(inString := true)
    else if c == '{' || (both && c == '[') then s.(depth := s.depth + 1)
    else if c == '}' || (both && c == ']') then s.(depth := s.depth - 1)
    else s
  }

  function Run(s: Scan, text: string, both: bool): Scan
    decreases text
  {
    if text == "" then s else Run(Next(s, text[0], both), text[1..], both)
  }

  // The highest and the lowest count along the way.
  function Peak(s: Scan, text: string, both: bool): (p: int)
    ensures p >= s.depth
    decreases text
  {
    if text == "" then s.depth else Max(s.depth, Peak(Next(s, text[0], both), text[1..], both))
  }

  function Low(s: Scan, text: string, both: bool): (p: int)
    ensures p <= s.depth
    decreases text
  {
    if text == "" then s.depth else -Max(-s.depth, -Low(Next(s, text[0], both), text[1..], both))
  }

  lemma {:induction false} Both(s: Scan, a: string, b: string, both: bool)
    ensures var t := Run(s, a, both);
      && Run(s, a + b, both) == Run(t, b, both)
      && Peak(s, a + b, both) == Max(Peak(s, a, both), Peak(t, b, both))
      && Low(s, a + b, both) == -Max(-Low(s, a, both), -Low(t, b, both))
    decreases a
  {
    hide Next;
    if a == "" {
      assert a + b == b;
    } else {
      assert (a + b)[0] == a[0] && (a + b)[1..] == a[1..] + b;
      Both(Next(s, a[0], both), a[1..], b, both);
    }
  }

  // The scan comes back to where it was, having gone up to a peak and never
  // below.
  predicate Rests(depth: int, text: string, both: bool, peak: int) {
    var s := Scan(depth, false, false);
    Run(s, text, both) == s && Peak(s, text, both) == peak && Low(s, text, both) == depth
  }

  lemma RestsBoth(depth: int, a: string, b: string, both: bool, p: int, q: int)
    requires Rests(depth, a, both, p) && Rests(depth, b, both, q)
    ensures Rests(depth, a + b, both, Max(p, q))
  {
    Both(Scan(depth, false, false), a, b, both);
  }

  lemma {:induction false} CalmRests(depth: int, text: string, both: bool)
    requires IsCalm(text)
    ensures Rests(depth, text, both, depth)
  {
    if text != "" {
      CalmRests(depth, text[1..], both);
    }
  }

  lemma {:induction false} PiecesStay(depth: int, pieces: seq<Piece>, both: bool)
    requires IsPieces(pieces)
    ensures var s := Scan(depth, true, false);
      Run(s, PrintPieces(pieces), both) == s && Peak(s, PrintPieces(pieces), both) == depth && Low(s, PrintPieces(pieces), both) == depth
  {
    if pieces != [] {
      var s := Scan(depth, true, false);
      PiecesStay(depth, pieces[1..], both);
      var first := match pieces[0] case Plain(c) => [c] case Escape(c) => ['\\', c];
      Both(s, first, PrintPieces(pieces[1..]), both);
      if pieces[0].Escape? {
        assert first[1..] == [pieces[0].c] && first[1..][1..] == "";
      } else {
        assert first[1..] == "";
      }
    }
  }

  lemma StringRests(depth: int, pieces: seq<Piece>, both: bool)
    requires IsPieces(pieces)
    ensures Rests(depth, PrintString(pieces), both, depth)
  {
    var s, t, body := Scan(depth, false, false), Scan(depth, true, false), PrintPieces(pieces);
    PiecesStay(depth, pieces, both);
    OneChar(s, '"', both);
    OneChar(t, '"', both);
    Both(s, "\"", body, both);
    Both(s, "\"" + body, "\"", both);
  }

  lemma OneChar(s: Scan, c: char, both: bool)
    ensures Run(s, [c], both) == Next(s, c, both)
    ensures Peak(s, [c], both) == Max(s.depth, Next(s, c, both).depth)
    ensures Low(s, [c], both) == -Max(-s.depth, -Next(s, c, both).depth)
  {
    assert [c][1..] == "";
  }

  lemma BracketRests(depth: int, open: char, inner: string, close: char, both: bool, peak: int)
    requires (open == '{' && close == '}') || (open == '[' && close == ']')
    requires Rests(if both || open == '{' then depth + 1 else depth, inner, both, peak)
    ensures Rests(depth, [open] + inner + [close], both, peak)
  {
    var s := Scan(depth, false, false);
    var t := Next(s, open, both);
    OneChar(s, open, both);
    OneChar(t, close, both);
    Both(s, [open], inner, both);
    Both(s, [open] + inner, [close], both);
    hide Run, Peak, Low;
  }

  lemma {:induction false} JsonRests(depth: int, v: Json, both: bool)
    requires IsJson(v)
    ensures Rests(depth, Print(v), both, depth + Depth(v, both))
    decreases v
  {
    hide Rests, IsCalm, IsPieces, PrintString;
    match v {
      case Literal(text) => CalmRests(depth, text, both);
      case Quoted(pieces) => StringRests(depth, pieces, both);
      case Array(blank, items) =>
        var inner := if both then depth + 1 else depth;
        CalmRests(inner, blank, both);
        ItemsRest(inner, items, both);
        RestsBoth(inner, blank, PrintItems(items), both, inner, inner + DepthOfItems(items, both));
        BracketRests(depth, '[', blank + PrintItems(items), ']', both, inner + DepthOfItems(items, both));
      case Object(blank, members) =>
        CalmRests(depth + 1, blank, both);
        MembersRest(depth + 1, members, both);
        RestsBoth(depth + 1, blank, PrintMembers(members), both, depth + 1, depth + 1 + DepthOfMembers(members, both));
        BracketRests(depth, '{', blank + PrintMembers(members), '}', both, depth + 1 + DepthOfMembers(members, both));
    }
  }

  // One item or member, what separates it from the rest, and the rest.
  lemma RestsThree(depth: int, a: string, b: string, c: string, both: bool, p: int, q: int)
    requires Rests(depth, a, both, p) && Rests(depth, b, both, depth) && Rests(depth, c, both, q) && p >= depth
    ensures Rests(depth, a + b + c, both, Max(p, q))
  {
    RestsBoth(depth, a, b, both, p, depth);
    RestsBoth(depth, a + b, c, both, p, q);
    hide Rests;
  }

  lemma {:induction false} ItemsRest(depth: int, items: Items, both: bool)
    requires IsItems(items)
    ensures Rests(depth, PrintItems(items), both, depth + DepthOfItems(items, both))
    decreases items
  {
    match items {
      case NoItems =>
      case Item(value, after, before, rest) =>
        var gap := after + (if rest.NoItems? then "" else "," + before);
        CalmRests(depth, gap, both);
        hide Rests, IsCalm, IsPieces, IsJson, Print, Depth;
        JsonRests(depth, value, both);
        ItemsRest(depth, rest, both);
        RestsThree(depth, Print(value), gap, PrintItems(rest), both, depth + Depth(value, both), depth + DepthOfItems(rest, both));
    }
  }

  function Gap(after: string, before: string, last: bool): string {
    after + (if last then "" else "," + before)
  }

  // What a member is made of.
  lemma MemberIs(members: Members)
    requires members.Member?
    ensures var Member(name, colon, value, after, before, rest) := members;
      var gap := Gap(after, before, rest.NoMembers?);
      && PrintMembers(members) == PrintString(name) + colon + Print(value) + gap + PrintMembers(rest)
      && (IsMembers(members) ==> IsPieces(name) && IsCalm(colon) && IsJson(value) && IsCalm(gap) && IsMembers(rest))
      && forall both :: DepthOfMembers(members, both) == Max(Depth(value, both), DepthOfMembers(rest, both))
  {
    hide PrintString, IsPieces, Print, IsJson;
  }

  lemma NoMembersRest(depth: int, both: bool)
    ensures Rests(depth, PrintMembers(NoMembers), both, depth + DepthOfMembers(NoMembers, both))
  {
  }

  lemma {:induction false} MembersRest(depth: int, members: Members, both: bool)
    requires IsMembers(members)
    ensures Rests(depth, PrintMembers(members), both, depth + DepthOfMembers(members, both))
    decreases members
  {
    hide *;
    match members {
      case NoMembers => NoMembersRest(depth, both);
      case Member(name, colon, value, after, before, rest) =>
        MemberIs(members);
        var gap := Gap(after, before, rest.NoMembers?);
        var deep, deeper := Depth(value, both), DepthOfMembers(rest, both);
        JsonRests(depth, value, both);
        MemberRests(depth, name, colon, Print(value), gap, both, depth + deep);
        MembersRest(depth, rest, both);
        RestsBoth(depth, PrintString(name) + colon + Print(value) + gap, PrintMembers(rest), both, depth + deep, depth + deeper);
        MaxAbove(depth, deep, deeper);
    }
  }

  lemma MaxAbove(depth: int, a: int, b: int)
    ensures Max(depth + a, depth + b) == depth + Max(a, b)
  {
  }

  lemma MemberRests(depth: int, name: seq<Piece>, colon: string, value: string, gap: string, both: bool, deep: int)
    requires IsPieces(name) && IsCalm(colon) && IsCalm(gap) && Rests(depth, value, both, deep) && deep >= depth
    ensures Rests(depth, PrintString(name) + colon + value + gap, both, deep)
  {
    StringRests(depth, name, both);
    CalmRests(depth, colon, both);
    CalmRests(depth, gap, both);
    hide Rests, PrintString, IsPieces, IsCalm;
    RestsBoth(depth, PrintString(name), colon, both, depth, depth);
    RestsBoth(depth, PrintString(name) + colon, value, both, depth, deep);
    RestsBoth(depth, PrintString(name) + colon + value, gap, both, deep, depth);
  }

  // ----- the depth guard ----------------------------------------------------

  const MAX_PARSE_DEPTH := 256

  method ExceedsDepthLimit(payload: string) returns (exceeds: bool)
    ensures exceeds <==> Peak(START, payload, true) > 256
  {
    var depth, inString, escaped := 0, false, false;
    assert payload[0..] == payload;
    for i := 0 to |payload|
      invariant depth <= MAX_PARSE_DEPTH
      invariant var s := Scan(depth, inString, escaped);
        Peak(START, payload, true) > MAX_PARSE_DEPTH <==> Peak(s, payload[i..], true) > MAX_PARSE_DEPTH
    {
      var c := payload[i];
      assert payload[i..][0] == c && payload[i..][1..] == payload[i + 1..];
      if inString {
        if escaped {
          escaped := false;
        } else if c == '\\' {
          escaped := true;
        } else if c == '"' {
          inString := false;
        }
        continue;
      }
      if c == '"' {
        inString := true;
      } else if c == '[' || c == '{' {
        depth := depth + 1;
        if depth > MAX_PARSE_DEPTH {
          return true;
        }
      } else if c == ']' || c == '}' {
        depth := depth - 1;
      }
    }
    return false;
  }

  // The guard refuses exactly the values that nest too deep.
  lemma GuardIsExact(v: Json, before: string, after: string)
    requires IsJson(v) && IsCalm(before) && IsCalm(after)
    ensures Peak(START, before + Print(v) + after, true) > 256 <==> Depth(v, true) > 256
  {
    CalmRests(0, before, true);
    JsonRests(0, v, true);
    CalmRests(0, after, true);
    RestsBoth(0, before, Print(v), true, 0, Depth(v, true));
    RestsBoth(0, before + Print(v), after, true, Depth(v, true), 0);
  }

  // ----- the extractor ------------------------------------------------------

  // The text from the first brace to where the braces first balance.
  ghost predicate IsFirstObject(text: string, r: Option<string>) {
    match r
    case Some(found) => exists start, end :: ClosesAt(text, start, end) && found == text[start..end]
    case None => forall start :: FirstBrace(text, start) ==> StaysOpen(text, start, |text| + 1)
  }

  // The first brace is at start, and they first balance at end.
  ghost predicate ClosesAt(text: string, start: int, end: int)
    ensures ClosesAt(text, start, end) ==> 0 <= start < end <= |text|
  {
    && 0 <= start < end <= |text| && FirstBrace(text, start)
    && Run(START, text[start..end], false).depth == 0 && StaysOpen(text, start, end)
  }

  predicate FirstBrace(text: string, start: int) {
    0 <= start < |text| && text[start] == '{' && '{' !in text[..start]
  }

  predicate StaysOpen(text: string, start: int, end: int)
    requires 0 <= start && end <= |text| + 1
  {
    forall k :: start < k < end ==> Run(START, text[start..k], false).depth > 0
  }

  lemma OneMore(text: string, start: nat, i: nat)
    requires start <= i < |text|
    ensures Run(START, text[start..i + 1], false) == Next(Run(START, text[start..i], false), text[i], false)
  {
    assert text[start..i + 1] == text[start..i] + [text[i]];
    Both(START, text[start..i], [text[i]], false);
    OneChar(Run(START, text[start..i], false), text[i], false);
  }

  method ExtractFirstJsonObject(text: string) returns (r: Option<string>)
    ensures IsFirstObject(text, r)
  {
    var start := 0;
    while start < |text| && text[start] != '{'
      invariant 0 <= start <= |text| && '{' !in text[..start]
    {
      start := start + 1;
    }
    if start == |text| {
      return None;
    }
    var depth, inString, escaped := 0, false, false;
    assert text[start..start] == "";
    for i := start to |text|
      invariant Run(START, text[start..i], false) == Scan(depth, inString, escaped)
      invariant StaysOpen(text, start, i + 1) && (i > start ==> depth > 0)
    {
      OneMore(text, start, i);
      var ch := text[i];
      if inString {
        if escaped {
          escaped := false;
        } else if ch == '\\' {
          escaped := true;
        } else if ch == '"' {
          inString := false;
        }
        continue;
      }
      if ch == '"' {
        inString := true;
      } else if ch == '{' {
        depth := depth + 1;
      } else if ch == '}' {
        depth := depth - 1;
        if depth == 0 {
          assert FirstBrace(text, start) && ClosesAt(text, start, i + 1);
          return Some(text[start..i + 1]);
        }
      }
    }
    return None;
  }

  lemma {:induction false} LowBelow(s: Scan, text: string, k: nat, both: bool)
    requires k <= |text|
    ensures Run(s, text[..k], both).depth >= Low(s, text, both)
  {
    assert text == text[..k] + text[k..];
    Both(s, text[..k], text[k..], both);
  }

  // Prose without braces, a printed object and anything after it: the object
  // comes out.
  lemma ObjectExtracted(prose: string, v: Json, tail: string, r: Option<string>)
    requires '{' !in prose && IsJson(v) && v.Object? && IsFirstObject(prose + Print(v) + tail, r)
    ensures r == Some(Print(v))
  {
    var text, printed, at := prose + Print(v) + tail, Print(v), |prose|;
    ObjectAt(prose, v, tail);
    ObjectStaysOpen(v);
    JsonRests(0, v, false);
    hide Print, IsJson;
    forall k | at < k < at + |printed| ensures Run(START, text[at..k], false).depth > 0 {
      assert text[at..k] == printed[..k - at];
    }
    OneObject(text, at, at + |printed|, r);
  }

  lemma ObjectAt(prose: string, v: Json, tail: string)
    requires '{' !in prose && v.Object?
    ensures var text := prose + Print(v) + tail;
      FirstBrace(text, |prose|) && |prose| + |Print(v)| <= |text| && text[|prose|..|prose| + |Print(v)|] == Print(v)
  {
    var text := prose + Print(v) + tail;
    assert Print(v)[0] == '{';
    assert text[..|prose|] == prose;
  }

  // Where the braces first balance is settled by the text.
  lemma OneObject(text: string, at: int, stop: int, r: Option<string>)
    requires ClosesAt(text, at, stop) && IsFirstObject(text, r)
    ensures r == Some(text[at..stop])
  {
    SomeObject(text, at, stop, r);
    hide ClosesAt;
    var start, end :| ClosesAt(text, start, end) && r.value == text[start..end];
    ClosesOnce(text, at, stop, start, end);
  }

  lemma SomeObject(text: string, start: int, end: int, r: Option<string>)
    requires ClosesAt(text, start, end) && IsFirstObject(text, r)
    ensures r.Some?
  {
    hide Run, FirstBrace;
  }

  lemma ClosesOnce(text: string, start: int, end: int, other: int, stop: int)
    requires ClosesAt(text, start, end) && ClosesAt(text, other, stop)
    ensures start == other && end == stop
  {
    NoBraceBefore(text, start, other);
    NoBraceBefore(text, other, start);
    hide Run, FirstBrace;
  }

  lemma NoBraceBefore(text: string, a: int, b: int)
    requires FirstBrace(text, a) && FirstBrace(text, b)
    ensures a >= b
  {
    forall i | 0 <= i < b ensures text[i] != '{' {
      assert text[..b][i] == text[i];
    }
  }

  lemma ObjectStaysOpen(v: Json)
    requires IsJson(v) && v.Object?
    ensures forall k :: 0 < k < |Print(v)| ==> Run(START, Print(v)[..k], false).depth > 0
  {
    var inner := v.blank + PrintMembers(v.members);
    CalmRests(1, v.blank, false);
    MembersRest(1, v.members, false);
    RestsBoth(1, v.blank, PrintMembers(v.members), false, 1, 1 + DepthOfMembers(v.members, false));
    var open := Scan(1, false, false);
    forall k | 0 < k < |Print(v)| ensures Run(START, Print(v)[..k], false).depth > 0 {
      assert Print(v)[..k] == "{" + inner[..k - 1];
      Both(START, "{", inner[..k - 1], false);
      OneChar(START, '{', false);
      LowBelow(open, inner, k - 1, false);
    }
  }
}
