/** The running count of the bracket scanners is the nesting of the value at
    every place of its text. */
module JsonNesting {
  import opened JsonScan

  // ----- the nesting, from the grammar --------------------------------------

  function Level(n: nat, depth: int): (levels: seq<int>)
    ensures |levels| == n
  {
    seq(n, _ => depth)
  }

  // How deep in arrays and objects each character of the printed value leaves
  // one, when the value stands at the given depth.
  function Nesting(v: Json, depth: int, both: bool): seq<int> {
    match v
    case Literal(text) => Level(|text|, depth)
    case Quoted(pieces) => Level(|PrintString(pieces)|, depth)
    case Array(blank, items) =>
      var inner := if both then depth + 1 else depth;
      [inner] + (Level(|blank|, inner) + NestingOfItems(items, inner, both)) + [depth]
    case Object(blank, members) =>
      [depth + 1] + (Level(|blank|, depth + 1) + NestingOfMembers(members, depth + 1, both)) + [depth]
  }

  function NestingOfItems(items: Items, depth: int, both: bool): seq<int> {
    match items
    case NoItems => []
    case Item(value, after, before, rest) =>
      Nesting(value, depth, both) + Level(|after + (if rest.NoItems? then "" else "," + before)|, depth)
        + NestingOfItems(rest, depth, both)
  }

  function NestingOfMembers(members: Members, depth: int, both: bool): seq<int> {
    match members
    case NoMembers => []
    case Member(name, colon, value, after, before, rest) =>
      Level(|PrintString(name)|, depth) + Level(|colon|, depth) + Nesting(value, depth, both)
        + Level(|after + (if rest.NoMembers? then "" else "," + before)|, depth) + NestingOfMembers(rest, depth, both)
  }

  // ----- the running count --------------------------------------------------

  // The count after each character.
  function Trace(s: Scan, text: string, both: bool): (counts: seq<int>)
    ensures |counts| == |text|
    decreases text
  {
    if text == "" then [] else [Next(s, text[0], both).depth] + Trace(Next(s, text[0], both), text[1..], both)
  }

  lemma {:induction false} TraceAt(s: Scan, text: string, both: bool, k: nat)
    requires 0 < k <= |text|
    ensures Trace(s, text, both)[k - 1] == Run(s, text[..k], both).depth
    decreases text
  {
    var t := Next(s, text[0], both);
    assert text[..k][1..] == text[1..][..k - 1];
    assert Run(s, text[..k], both) == Run(t, text[1..][..k - 1], both);
    hide Next;
    if k == 1 {
      assert text[1..][..0] == "";
    } else {
      TraceAt(t, text[1..], both, k - 1);
    }
  }

  lemma {:induction false} TraceBoth(s: Scan, a: string, b: string, both: bool)
    ensures Trace(s, a + b, both) == Trace(s, a, both) + Trace(Run(s, a, both), b, both)
    decreases a
  {
    hide Next;
    if a == "" {
      assert a + b == b;
    } else {
      assert (a + b)[0] == a[0] && (a + b)[1..] == a[1..] + b;
      TraceBoth(Next(s, a[0], both), a[1..], b, both);
    }
  }

  // A count that never moves.
  lemma {:induction false} TraceFlat(s: Scan, text: string, both: bool)
    requires Peak(s, text, both) == Low(s, text, both)
    ensures Trace(s, text, both) == Level(|text|, s.depth)
    decreases text
  {
    if text != "" {
      TraceFlat(Next(s, text[0], both), text[1..], both);
    }
  }

  // The scan comes back to where it was, its count going through the levels.
  predicate Goes(depth: int, text: string, both: bool, levels: seq<int>) {
    var s := Scan(depth, false, false);
    Run(s, text, both) == s && Trace(s, text, both) == levels
  }

  lemma FlatGoes(depth: int, text: string, both: bool)
    requires Rests(depth, text, both, depth)
    ensures Goes(depth, text, both, Level(|text|, depth))
  {
    TraceFlat(Scan(depth, false, false), text, both);
  }

  lemma GoesBoth(depth: int, a: string, b: string, both: bool, p: seq<int>, q: seq<int>)
    requires Goes(depth, a, both, p) && Goes(depth, b, both, q)
    ensures Goes(depth, a + b, both, p + q)
  {
    var s := Scan(depth, false, false);
    Both(s, a, b, both);
    TraceBoth(s, a, b, both);
  }

  // Two stretches of text, one after the other.
  lemma TwoTraces(s: Scan, a: string, b: string, both: bool, t: Scan, u: Scan, p: seq<int>, q: seq<int>)
    requires Run(s, a, both) == t && Trace(s, a, both) == p && Run(t, b, both) == u && Trace(t, b, both) == q
    ensures Run(s, a + b, both) == u && Trace(s, a + b, both) == p + q
  {
    Both(s, a, b, both);
    TraceBoth(s, a, b, both);
  }

  lemma BracketGoes(depth: int, open: char, inner: string, close: char, both: bool, levels: seq<int>)
    requires (open == '{' && close == '}') || (open == '[' && close == ']')
    requires Goes(if both || open == '{' then depth + 1 else depth, inner, both, levels)
    ensures Goes(depth, [open] + inner + [close], both, [if both || open == '{' then depth + 1 else depth] + levels + [depth])
  {
    var s := Scan(depth, false, false);
    var t := Next(s, open, both);
    OneTrace(s, open, both);
    OneTrace(t, close, both);
    hide Run, Trace;
    TwoTraces(s, [open], inner, both, t, t, [t.depth], levels);
    TwoTraces(s, [open] + inner, [close], both, t, s, [t.depth] + levels, [depth]);
  }

  lemma OneTrace(s: Scan, c: char, both: bool)
    ensures Run(s, [c], both) == Next(s, c, both) && Trace(s, [c], both) == [Next(s, c, both).depth]
  {
    assert [c][1..] == "";
  }

  lemma {:induction false} JsonGoes(depth: int, v: Json, both: bool)
    requires IsJson(v)
    ensures Goes(depth, Print(v), both, Nesting(v, depth, both))
    decreases v
  {
    hide Goes, Rests, IsCalm, IsPieces, PrintString, Level;
    match v {
      case Literal(text) =>
        CalmRests(depth, text, both);
        FlatGoes(depth, text, both);
      case Quoted(pieces) =>
        StringRests(depth, pieces, both);
        FlatGoes(depth, PrintString(pieces), both);
      case Array(blank, items) =>
        var inner := if both then depth + 1 else depth;
        CalmRests(inner, blank, both);
        FlatGoes(inner, blank, both);
        ItemsGo(inner, items, both);
        GoesBoth(inner, blank, PrintItems(items), both, Level(|blank|, inner), NestingOfItems(items, inner, both));
        BracketGoes(depth, '[', blank + PrintItems(items), ']', both, Level(|blank|, inner) + NestingOfItems(items, inner, both));
      case Object(blank, members) =>
        var inner := depth + 1;
        CalmRests(inner, blank, both);
        FlatGoes(inner, blank, both);
        MembersGo(inner, members, both);
        GoesBoth(inner, blank, PrintMembers(members), both, Level(|blank|, inner), NestingOfMembers(members, inner, both));
        BracketGoes(depth, '{', blank + PrintMembers(members), '}', both, Level(|blank|, inner) + NestingOfMembers(members, inner, both));
    }
  }

  lemma {:induction false} ItemsGo(depth: int, items: Items, both: bool)
    requires IsItems(items)
    ensures Goes(depth, PrintItems(items), both, NestingOfItems(items, depth, both))
    decreases items
  {
    match items {
      case NoItems =>
      case Item(value, after, before, rest) =>
        var gap := after + (if rest.NoItems? then "" else "," + before);
        CalmRests(depth, gap, both);
        hide Goes, Rests, IsCalm, IsPieces, IsJson, Level, Print;
        JsonGoes(depth, value, both);
        FlatGoes(depth, gap, both);
        ItemsGo(depth, rest, both);
        GoesBoth(depth, Print(value), gap, both, Nesting(value, depth, both), Level(|gap|, depth));
        GoesBoth(depth, Print(value) + gap, PrintItems(rest), both, Nesting(value, depth, both) + Level(|gap|, depth),
                 NestingOfItems(rest, depth, both));
    }
  }

  lemma MemberGoes(depth: int, name: seq<Piece>, colon: string, value: string, gap: string, both: bool, levels: seq<int>)
    requires IsPieces(name) && IsCalm(colon) && IsCalm(gap) && Goes(depth, value, both, levels)
    ensures Goes(depth, PrintString(name) + colon + value + gap, both,
                 Level(|PrintString(name)|, depth) + Level(|colon|, depth) + levels + Level(|gap|, depth))
  {
    StringRests(depth, name, both);
    CalmRests(depth, colon, both);
    CalmRests(depth, gap, both);
    hide Goes, Rests, PrintString, IsPieces, IsCalm, Level;
    var p, q, r := Level(|PrintString(name)|, depth), Level(|colon|, depth), Level(|gap|, depth);
    FlatGoes(depth, PrintString(name), both);
    FlatGoes(depth, colon, both);
    FlatGoes(depth, gap, both);
    GoesBoth(depth, PrintString(name), colon, both, p, q);
    GoesBoth(depth, PrintString(name) + colon, value, both, p + q, levels);
    GoesBoth(depth, PrintString(name) + colon + value, gap, both, p + q + levels, r);
  }

  lemma {:induction false} MembersGo(depth: int, members: Members, both: bool)
    requires IsMembers(members)
    ensures Goes(depth, PrintMembers(members), both, NestingOfMembers(members, depth, both))
    decreases members
  {
    match members {
      case NoMembers =>
      case Member(name, colon, value, after, before, rest) =>
        var gap := after + (if rest.NoMembers? then "" else "," + before);
        JsonGoes(depth, value, both);
        MemberGoes(depth, name, colon, Print(value), gap, both, Nesting(value, depth, both));
        MembersGo(depth, rest, both);
        hide Goes, Print, PrintString, IsPieces, IsJson, IsCalm, Level, Nesting;
        var first := PrintString(name) + colon + Print(value) + gap;
        var levels := Level(|PrintString(name)|, depth) + Level(|colon|, depth) + Nesting(value, depth, both) + Level(|gap|, depth);
        GoesBoth(depth, first, PrintMembers(rest), both, levels, NestingOfMembers(rest, depth, both));
    }
  }

  // After every character of a printed value the running count is the nesting
  // there.
  lemma CountIsNesting(v: Json, both: bool, k: nat)
    requires IsJson(v) && 0 < k <= |Print(v)|
    ensures |Nesting(v, 0, both)| == |Print(v)|
    ensures Run(START, Print(v)[..k], both).depth == Nesting(v, 0, both)[k - 1]
  {
    JsonGoes(0, v, both);
    TraceAt(START, Print(v), both, k);
  }
}
