/** The pages of blame mcp-server/src/server.ts serves: the lowest lines picked
    out of hunks streamed in any order, in bounded memory. */
module BlamePage {
  import opened Wrappers

  datatype Hunk = Hunk(resultLine: int, lineCount: nat)

  const DEFAULT_BLAME_HUNKS: nat := 200
  const MAX_BLAME_HUNKS: nat := 500

  function Limit(asked: Option<nat>): nat {
    var n := if asked.None? then DEFAULT_BLAME_HUNKS else asked.value;
    if n < MAX_BLAME_HUNKS then n else MAX_BLAME_HUNKS
  }

  function LastLine(h: Hunk): int {
    h.resultLine + h.lineCount - 1
  }

  predicate Wanted(h: Hunk, startLine: int, line: Option<int>) {
    LastLine(h) >= startLine && (line.None? || (h.resultLine <= line.value < h.resultLine + h.lineCount))
  }

  function Matching(stream: seq<Hunk>, startLine: int, line: Option<int>): seq<Hunk> {
    if stream == [] then [] else
      var before, hunk := Matching(stream[..|stream| - 1], startLine, line), stream[|stream| - 1];
      if Wanted(hunk, startLine, line) then before + [hunk] else before
  }

  // ----- sort, then take ----------------------------------------------------

  function Place(h: Hunk, s: seq<Hunk>): seq<Hunk> {
    if s == [] || s[0].resultLine >= h.resultLine then [h] + s else [s[0]] + Place(h, s[1..])
  }

  function Sorted(s: seq<Hunk>): seq<Hunk> {
    if s == [] then [] else Place(s[|s| - 1], Sorted(s[..|s| - 1]))
  }

  predicate Ascending(s: seq<Hunk>) {
    forall i, j :: 0 <= i < j < |s| ==> s[i].resultLine <= s[j].resultLine
  }

  function Take(s: seq<Hunk>, n: nat): seq<Hunk> {
    if |s| <= n then s else s[..n]
  }

  lemma {:induction false} PlaceBag(h: Hunk, s: seq<Hunk>)
    ensures multiset(Place(h, s)) == multiset{h} + multiset(s) && |Place(h, s)| == |s| + 1
  {
    if s != [] && s[0].resultLine < h.resultLine {
      PlaceBag(h, s[1..]);
      assert s == [s[0]] + s[1..];
    }
  }

  // The lower bound is where a hunk is placed.
  lemma {:induction false} PlaceAt(h: Hunk, s: seq<Hunk>, low: nat)
    requires low <= |s|
    requires forall i :: 0 <= i < low ==> s[i].resultLine < h.resultLine
    requires low < |s| ==> s[low].resultLine >= h.resultLine
    ensures Place(h, s) == s[..low] + [h] + s[low..]
  {
    if low == 0 {
      assert s[..0] + [h] + s[0..] == [h] + s;
    } else {
      PlaceAt(h, s[1..], low - 1);
      assert s[..low] == [s[0]] + s[1..][..low - 1] && s[low..] == s[1..][low - 1..];
    }
  }

  lemma {:induction false} PlaceAscends(h: Hunk, s: seq<Hunk>)
    requires Ascending(s)
    ensures Ascending(Place(h, s))
    ensures Place(h, s)[0] == if s == [] || s[0].resultLine >= h.resultLine then h else s[0]
  {
    if s != [] && s[0].resultLine < h.resultLine {
      PlaceAscends(h, s[1..]);
      var rest := Place(h, s[1..]);
      assert forall j :: 0 <= j < |rest| ==> rest[0].resultLine <= rest[j].resultLine;
      assert s[0].resultLine <= rest[0].resultLine;
    }
  }

  lemma {:induction false} SortedBag(s: seq<Hunk>)
    ensures multiset(Sorted(s)) == multiset(s) && |Sorted(s)| == |s|
  {
    if s != [] {
      SortedBag(s[..|s| - 1]);
      PlaceBag(s[|s| - 1], Sorted(s[..|s| - 1]));
      assert s == s[..|s| - 1] + [s[|s| - 1]];
      hide Place;
    }
  }

  lemma {:induction false} SortedAscends(s: seq<Hunk>)
    ensures Ascending(Sorted(s))
  {
    if s != [] {
      SortedAscends(s[..|s| - 1]);
      PlaceAscends(s[|s| - 1], Sorted(s[..|s| - 1]));
      hide Place, Ascending;
    }
  }

  lemma SortedIs(s: seq<Hunk>)
    ensures Ascending(Sorted(s)) && multiset(Sorted(s)) == multiset(s) && |Sorted(s)| == |s|
  {
    SortedBag(s);
    SortedAscends(s);
  }

  // Placing among the lowest kept and cutting again loses nothing.
  lemma {:induction false} PlaceInLowest(h: Hunk, s: seq<Hunk>, n: nat)
    ensures Take(Place(h, s), n) == Take(Place(h, Take(s, n)), n)
  {
    if |s| > n && n > 0 && s[0].resultLine < h.resultLine {
      PlaceInLowest(h, s[1..], n - 1);
      var t := s[..n];
      assert t[1..] == s[1..][..n - 1];
      PlaceBag(h, s[1..]);
      PlaceBag(h, t[1..]);
      assert Take(Place(h, s), n) == [s[0]] + Take(Place(h, s[1..]), n - 1);
      assert Take(Place(h, t), n) == [s[0]] + Take(Place(h, t[1..]), n - 1);
    } else if |s| > n {
      var t := s[..n];
      if n > 0 {
        assert Place(h, s) == [h] + s && Place(h, t) == [h] + t;
        assert ([h] + s)[..n] == ([h] + t)[..n];
      } else {
        PlaceBag(h, s);
        PlaceBag(h, t);
      }
    }
  }

  // ----- the handler --------------------------------------------------------

  method InsertByLine(hunks: seq<Hunk>, hunk: Hunk) returns (next: seq<Hunk>)
    requires Ascending(hunks)
    ensures next == Place(hunk, hunks)
  {
    var low, high := 0, |hunks|;
    while low < high
      invariant 0 <= low <= high <= |hunks|
      invariant forall k :: 0 <= k < low ==> hunks[k].resultLine < hunk.resultLine
      invariant forall k :: high <= k < |hunks| ==> hunks[k].resultLine >= hunk.resultLine
    {
      var mid := (low + high) / 2;
      if hunks[mid].resultLine < hunk.resultLine {
        low := mid + 1;
      } else {
        high := mid;
      }
    }
    PlaceAt(hunk, hunks, low);
    next := hunks[..low] + [hunk] + hunks[low..];
  }

  lemma OneMore(stream: seq<Hunk>, i: nat, startLine: int, line: Option<int>, limit: nat)
    requires i < |stream|
    ensures var some := Sorted(Matching(stream[..i], startLine, line));
      var more := Sorted(Matching(stream[..i + 1], startLine, line));
      && Ascending(Take(some, limit))
      && (!Wanted(stream[i], startLine, line) ==> more == some)
      && (Wanted(stream[i], startLine, line) ==>
            && |more| == |some| + 1 && Take(more, limit) == Take(Place(stream[i], Take(some, limit)), limit)
            && |Place(stream[i], Take(some, limit))| == |Take(some, limit)| + 1)
  {
    var some, hunk := Matching(stream[..i], startLine, line), stream[i];
    assert stream[..i + 1][..i] == stream[..i] && stream[..i + 1][i] == hunk;
    SortedIs(some);
    if Wanted(hunk, startLine, line) {
      assert (some + [hunk])[..|some|] == some;
      PlaceBag(hunk, Sorted(some));
      PlaceBag(hunk, Take(Sorted(some), limit));
      PlaceInLowest(hunk, Sorted(some), limit);
    }
  }

  method Collect(stream: seq<Hunk>, startLine: int, line: Option<int>, limit: nat) returns (hunks: seq<Hunk>, truncated: bool)
    ensures var all := Sorted(Matching(stream, startLine, line));
      hunks == Take(all, limit) && (truncated <==> |all| > limit)
  {
    hunks := [];
    truncated := false;
    for i := 0 to |stream|
      invariant hunks == Take(Sorted(Matching(stream[..i], startLine, line)), limit)
      invariant truncated <==> |Sorted(Matching(stream[..i], startLine, line))| > limit
    {
      hide Sorted, Matching, Place;
      OneMore(stream, i, startLine, line, limit);
      var hunk := stream[i];
      if LastLine(hunk) < startLine {
        continue;
      }
      if line.Some? && !(line.value >= hunk.resultLine && line.value < hunk.resultLine + hunk.lineCount) {
        continue;
      }
      hunks := InsertByLine(hunks, hunk);
      if |hunks| > limit {
        hunks := hunks[..|hunks| - 1];
        truncated := true;
      }
    }
    assert stream[..|stream|] == stream;
  }

  // ----- page after page ----------------------------------------------------

  predicate Apart(a: Hunk, b: Hunk) {
    LastLine(a) < b.resultLine || LastLine(b) < a.resultLine
  }

  // Every hunk covers lines of its own.
  ghost predicate Disjoint(bag: multiset<Hunk>) {
    && (forall h :: h in bag ==> h.lineCount > 0 && bag[h] == 1)
    && forall g, h :: g in bag && h in bag && g != h ==> Apart(g, h)
  }

  function NextLine(page: seq<Hunk>): int
    requires page != []
  {
    page[|page| - 1].resultLine + page[|page| - 1].lineCount
  }

  function From(s: seq<Hunk>, startLine: int): seq<Hunk> {
    Sorted(Matching(s, startLine, None))
  }

  lemma {:induction false} MatchingIs(s: seq<Hunk>, startLine: int, line: Option<int>)
    ensures forall h :: multiset(Matching(s, startLine, line))[h] == if Wanted(h, startLine, line) then multiset(s)[h] else 0
    ensures |Matching(s, startLine, line)| <= |s|
  {
    if s != [] {
      MatchingIs(s[..|s| - 1], startLine, line);
      assert s == s[..|s| - 1] + [s[|s| - 1]];
    }
  }

  lemma {:induction false} TwiceInBag(s: seq<Hunk>, i: nat, j: nat)
    requires i < j < |s| && s[i] == s[j]
    ensures multiset(s)[s[i]] >= 2
  {
    assert s == s[..j] + [s[j]] + s[j + 1..];
    assert s[i] == s[..j][i] && s[i] in s[..j];
    assert multiset(s) == multiset(s[..j]) + multiset{s[j]} + multiset(s[j + 1..]);
  }

  predicate Strict(s: seq<Hunk>) {
    && (forall i :: 0 <= i < |s| ==> s[i].lineCount > 0)
    && forall i, j :: 0 <= i < j < |s| ==> LastLine(s[i]) < s[j].resultLine
  }

  lemma DisjointStrict(s: seq<Hunk>)
    requires Ascending(s) && Disjoint(multiset(s))
    ensures Strict(s)
  {
    forall i | 0 <= i < |s| ensures s[i].lineCount > 0 {
      assert s[i] in multiset(s);
    }
    forall i, j | 0 <= i < j < |s| ensures LastLine(s[i]) < s[j].resultLine {
      assert s[i] in multiset(s) && s[j] in multiset(s);
      if s[i] == s[j] { TwiceInBag(s, i, j); }
      assert Apart(s[i], s[j]);
    }
  }

  lemma HeadLeast(s: seq<Hunk>, h: Hunk)
    requires Strict(s) && h in multiset(s)
    ensures s != [] && h in s && (h == s[0] || s[0].resultLine < h.resultLine)
  {
    assert h in s;
    var i :| 0 <= i < |s| && s[i] == h;
    assert i > 0 ==> LastLine(s[0]) < s[i].resultLine;
  }

  lemma Tail(s: seq<Hunk>)
    requires Strict(s) && s != []
    ensures Strict(s[1..]) && multiset(s[1..]) == multiset(s) - multiset{s[0]} && s[0] in multiset(s)
  {
    assert s == [s[0]] + s[1..];
  }

  // There is one way to put disjoint hunks in line order.
  lemma {:induction false} OneOrder(a: seq<Hunk>, b: seq<Hunk>)
    requires Strict(a) && Strict(b) && multiset(a) == multiset(b)
    ensures a == b
    decreases |a|
  {
    hide Strict;
    assert |multiset(a)| == |a| && |multiset(b)| == |b|;
    if a != [] {
      Tail(a);
      Tail(b);
      HeadLeast(a, b[0]);
      HeadLeast(b, a[0]);
      OneOrder(a[1..], b[1..]);
      HeadAndTail(a, b);
    } else {
      assert b == [];
    }
  }

  lemma HeadAndTail(a: seq<Hunk>, b: seq<Hunk>)
    requires a != [] && b != [] && a[0] == b[0] && a[1..] == b[1..]
    ensures a == b
  {
    assert a == [a[0]] + a[1..] && b == [b[0]] + b[1..];
  }

  lemma FromCounts(s: seq<Hunk>, startLine: int)
    ensures forall h :: multiset(From(s, startLine))[h] == if LastLine(h) >= startLine then multiset(s)[h] else 0
    ensures Ascending(From(s, startLine))
  {
    MatchingIs(s, startLine, None);
    SortedIs(Matching(s, startLine, None));
    hide Sorted, Matching;
  }

  lemma FromStrict(s: seq<Hunk>, startLine: int)
    requires Disjoint(multiset(s))
    ensures Strict(From(s, startLine))
  {
    FromCounts(s, startLine);
    hide From;
    var all := From(s, startLine);
    forall h | h in multiset(all) ensures h in multiset(s) && multiset(all)[h] == multiset(s)[h] {}
    DisjointStrict(all);
  }

  // What a page starts from does not depend on how the hunks arrive.
  lemma FromIs(s: seq<Hunk>, hunks: seq<Hunk>, startLine: int)
    requires multiset(s) == multiset(hunks) && Disjoint(multiset(hunks))
    ensures From(s, startLine) == From(hunks, startLine) && Strict(From(hunks, startLine))
  {
    hide From, Strict, Ascending, Disjoint;
    FromStrict(s, startLine);
    FromStrict(hunks, startLine);
    FromSameBag(s, hunks, startLine);
    OneOrder(From(s, startLine), From(hunks, startLine));
  }

  lemma FromSameBag(s: seq<Hunk>, hunks: seq<Hunk>, startLine: int)
    requires multiset(s) == multiset(hunks)
    ensures multiset(From(s, startLine)) == multiset(From(hunks, startLine))
  {
    FromCounts(s, startLine);
    FromCounts(hunks, startLine);
    hide From, Ascending;
  }

  // Every hunk of a page ends before the next page's first line, and every
  // hunk left does not.
  lemma PageEnds(all: seq<Hunk>, limit: nat, h: Hunk)
    requires Strict(all) && 0 < limit < |all|
    ensures h in all[..limit] ==> LastLine(h) < NextLine(all[..limit])
    ensures h in all[limit..] ==> LastLine(h) >= NextLine(all[..limit])
  {
    if h in all[..limit] {
      var i :| 0 <= i < limit && all[i] == h;
      assert i < limit - 1 ==> LastLine(all[i]) < all[limit - 1].resultLine;
    }
    if h in all[limit..] {
      var i :| limit <= i < |all| && all[i] == h;
      assert LastLine(all[limit - 1]) < all[i].resultLine;
    }
  }

  lemma RestCounts(all: seq<Hunk>, limit: nat, h: Hunk)
    requires Strict(all) && 0 < limit < |all|
    ensures multiset(all[limit..])[h] == if LastLine(h) >= NextLine(all[..limit]) then multiset(all)[h] else 0
  {
    PageEnds(all, limit, h);
    hide Strict;
    assert all == all[..limit] + all[limit..];
    assert multiset(all) == multiset(all[..limit]) + multiset(all[limit..]);
  }

  lemma StrictRest(all: seq<Hunk>, limit: nat)
    requires Strict(all) && limit <= |all|
    ensures Strict(all[limit..])
  {
  }

  // The page after is what the page left.
  lemma NextPage(hunks: seq<Hunk>, startLine: int, limit: nat)
    requires Disjoint(multiset(hunks)) && 0 < limit < |From(hunks, startLine)|
    ensures From(hunks, NextLine(From(hunks, startLine)[..limit])) == From(hunks, startLine)[limit..]
  {
    hide From, Disjoint, Strict;
    var all := From(hunks, startLine);
    var rest, next := all[limit..], NextLine(all[..limit]);
    FromCounts(hunks, startLine);
    FromCounts(hunks, next);
    FromStrict(hunks, startLine);
    FromStrict(hunks, next);
    hide Ascending;
    assert all[limit - 1] in multiset(all) && next > startLine;
    forall h ensures multiset(rest)[h] == multiset(From(hunks, next))[h] {
      RestCounts(all, limit, h);
    }
    StrictRest(all, limit);
    assert multiset(rest) == multiset(From(hunks, next));
    OneOrder(rest, From(hunks, next));
  }

  lemma OnlyCover(stream: seq<Hunk>, startLine: int, line: int, h: Hunk)
    requires Disjoint(multiset(stream)) && startLine <= line && h in stream && h.resultLine <= line < h.resultLine + h.lineCount
    ensures multiset(Matching(stream, startLine, Some(line))) == multiset{h}
  {
    MatchingIs(stream, startLine, Some(line));
    var bag := multiset(stream);
    assert h in bag;
    forall g | g in bag && g != h ensures !Wanted(g, startLine, Some(line)) {
      assert Apart(g, h);
    }
    assert forall g :: multiset(Matching(stream, startLine, Some(line)))[g] == multiset{h}[g];
  }

  // Asking for one line gives the hunk that covers it, or nothing.
  lemma OneLine(stream: seq<Hunk>, startLine: int, line: int)
    requires Disjoint(multiset(stream)) && startLine <= line
    ensures forall h :: h in stream && h.resultLine <= line < h.resultLine + h.lineCount ==>
      Sorted(Matching(stream, startLine, Some(line))) == [h]
    ensures (forall h :: h in stream ==> !(h.resultLine <= line < h.resultLine + h.lineCount)) ==>
      Sorted(Matching(stream, startLine, Some(line))) == []
  {
    var found := Matching(stream, startLine, Some(line));
    SortedBag(found);
    MatchingIs(stream, startLine, Some(line));
    hide Matching, Sorted;
    forall h | h in stream && h.resultLine <= line < h.resultLine + h.lineCount ensures Sorted(found) == [h] {
      OnlyCover(stream, startLine, line, h);
      assert |multiset(Sorted(found))| == 1 && Sorted(found)[0] in multiset(Sorted(found));
    }
    if forall h :: h in stream ==> !(h.resultLine <= line < h.resultLine + h.lineCount) {
      assert forall h :: h in found ==> h in multiset(found) && h in multiset(stream);
      assert found == [];
    }
  }

  // One request: the page, and the line to ask for next when it is cut.
  method GitBlame(stream: seq<Hunk>, fromLine: Option<int>, line: Option<int>, asked: Option<nat>)
      returns (page: seq<Hunk>, next: Option<int>)
    requires asked.Some? ==> asked.value > 0
    ensures var all := Sorted(Matching(stream, if fromLine.Some? then fromLine.value else 1, line));
      && page == Take(all, Limit(asked)) && |page| <= MAX_BLAME_HUNKS
      && (next.Some? <==> |all| > if asked.None? then 200 else if asked.value < 500 then asked.value else 500)
    ensures next.Some? ==> page != [] && next.value == NextLine(page)
    ensures line.Some? && Disjoint(multiset(stream)) && (if fromLine.Some? then fromLine.value else 1) <= line.value ==>
      && next.None?
      && (forall h :: h in stream && h.resultLine <= line.value < h.resultLine + h.lineCount ==> page == [h])
      && ((forall h :: h in stream ==> !(h.resultLine <= line.value < h.resultLine + h.lineCount)) ==> page == [])
  {
    var startLine := if fromLine.Some? then fromLine.value else 1;
    var truncated;
    page, truncated := Collect(stream, startLine, line, Limit(asked));
    if line.Some? && Disjoint(multiset(stream)) && startLine <= line.value {
      OneLine(stream, startLine, line.value);
    }
    hide Sorted, Matching, Disjoint;
    next := None;
    if truncated {
      var last := page[|page| - 1];
      next := Some(last.resultLine + last.lineCount);
    }
  }

  // Following the next line from page to page, each page streaming the hunks
  // again in whatever order, until one is not cut.
  method FollowPages(arrival: int -> seq<Hunk>, hunks: seq<Hunk>, startLine: int, asked: Option<nat>) returns (read: seq<Hunk>)
    requires (asked.Some? ==> asked.value > 0) && Disjoint(multiset(hunks))
    requires forall n :: multiset(arrival(n)) == multiset(hunks)
    ensures read == From(hunks, startLine)
    decreases |From(hunks, startLine)|
  {
    FromIs(arrival(startLine), hunks, startLine);
    var page, next := GitBlame(arrival(startLine), Some(startLine), None, asked);
    read := page;
    if next.Some? {
      NextPage(hunks, startLine, Limit(asked));
      var more := FollowPages(arrival, hunks, next.value, asked);
      read := page + more;
    }
  }

  // From a line at or before the first, that is every hunk once, by line.
  lemma AllPages(hunks: seq<Hunk>, startLine: int)
    requires Disjoint(multiset(hunks)) && forall h :: h in hunks ==> startLine <= h.resultLine
    ensures multiset(From(hunks, startLine)) == multiset(hunks) && Strict(From(hunks, startLine))
  {
    FromCounts(hunks, startLine);
    FromStrict(hunks, startLine);
    var all := From(hunks, startLine);
    hide From, Strict, Ascending;
    forall h ensures multiset(all)[h] == multiset(hunks)[h] {
      if h in multiset(hunks) {
        assert h in hunks;
      }
    }
  }
}
