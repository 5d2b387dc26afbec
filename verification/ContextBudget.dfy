/** The prompt budget of extension/src/ai/contextBuilder.ts: which files are
    shown, in what order, and how much of each patch. */
module ContextBudget {
  import opened Arithmetic
  import opened Wrappers

  // ----- one cap for all ----------------------------------------------------

  const MAX_SAFE_INTEGER: nat := 9007199254740991
  const MIN_PATCH_CHARS: nat := 160

  // The characters shown when every length is cut to the cap.
  function Shown(lengths: seq<nat>, cap: nat): nat {
    if lengths == [] then 0 else Min(lengths[0], cap) + Shown(lengths[1..], cap)
  }

  function Total(lengths: seq<nat>): nat {
    if lengths == [] then 0 else lengths[0] + Total(lengths[1..])
  }

  predicate IsSorted(s: seq<nat>) {
    forall i, j :: 0 <= i < j < |s| ==> s[i] <= s[j]
  }

  function Insert(x: nat, s: seq<nat>): seq<nat> {
    if s == [] || x <= s[0] then [x] + s else [s[0]] + Insert(x, s[1..])
  }

  function Sort(s: seq<nat>): seq<nat> {
    if s == [] then [] else Insert(s[0], Sort(s[1..]))
  }

  lemma {:induction false} InsertKeeps(x: nat, s: seq<nat>, cap: nat)
    requires IsSorted(s)
    ensures var r := Insert(x, s);
      && IsSorted(r) && |r| == |s| + 1 && Shown(r, cap) == Min(x, cap) + Shown(s, cap) && Total(r) == x + Total(s)
      && r[0] == if s == [] || x <= s[0] then x else s[0]
  {
    if s != [] && x > s[0] {
      InsertKeeps(x, s[1..], cap);
      var r := Insert(x, s);
      assert r[1..] == Insert(x, s[1..]);
    }
  }

  lemma {:induction false} SortKeeps(s: seq<nat>, cap: nat)
    ensures var r := Sort(s); IsSorted(r) && |r| == |s| && Shown(r, cap) == Shown(s, cap) && Total(r) == Total(s)
  {
    if s != [] {
      SortKeeps(s[1..], cap);
      InsertKeeps(s[0], Sort(s[1..]), cap);
    }
  }

  // Cut at a level between two neighbours of a sorted list, the short ones
  // are whole and the long ones are all at the level.
  lemma {:induction false} ShownSorted(s: seq<nat>, i: nat, cap: nat)
    requires IsSorted(s) && i <= |s| && (i > 0 ==> s[i - 1] <= cap) && (i < |s| ==> cap <= s[i])
    ensures Shown(s, cap) == Total(s[..i]) + (|s| - i) * cap
    decreases |s|
  {
    if s == [] {
    } else if i > 0 {
      assert s[..i][1..] == s[1..][..i - 1];
      ShownSorted(s[1..], i - 1, cap);
    } else {
      assert s[..0] == [];
      ShownSorted(s[1..], 0, cap);
      assert s[1..][..0] == [];
      assert |s| * cap == cap + (|s| - 1) * cap;
    }
  }

  lemma {:induction false} TotalMore(s: seq<nat>, i: nat)
    requires i < |s|
    ensures Total(s[..i + 1]) == Total(s[..i]) + s[i]
  {
    if i == 0 {
      assert s[..1] == [s[0]] && s[..0] == [];
    } else {
      assert s[..i + 1][1..] == s[1..][..i] && s[..i][1..] == s[1..][..i - 1];
      TotalMore(s[1..], i - 1);
    }
  }

  lemma {:induction false} ShownGrows(s: seq<nat>, cap: nat, more: nat)
    requires cap <= more
    ensures Shown(s, cap) <= Shown(s, more) <= Total(s)
  {
    if s != [] {
      ShownGrows(s[1..], cap, more);
    }
  }

  lemma Smaller(n: nat, a: int, b: int)
    requires n * a < n * b
    ensures a < b
  {
    assert n * a == n * b + n * (a - b);
  }

  // A level that shares what the short ones leave lies between the last
  // short one and the first long one.
  lemma LevelBetween(rest: nat, prefix: int, last: int, first: int, budget: int, level: int)
    requires rest * level <= budget - prefix < rest * (level + 1) && prefix + rest * first > budget
    ensures level < first
    ensures prefix - last + (rest + 1) * last <= budget ==> last <= level
  {
    Smaller(rest, level, first);
    assert (rest + 1) * last == rest * last + last;
    if rest * last <= budget - prefix {
      Smaller(rest, last, level + 1);
    }
  }

  // Everything from the file before i on, cut to that file's length, fits.
  predicate EvenShareFits(s: seq<nat>, i: nat, budget: int)
    requires i <= |s|
  {
    i > 0 ==> Total(s[..i - 1]) + (|s| - i + 1) * s[i - 1] <= budget
  }

  lemma NextFits(s: seq<nat>, i: nat, budget: int)
    requires i < |s|
    ensures EvenShareFits(s, 0, budget)
    ensures Total(s[..i]) + (|s| - i) * s[i] <= budget ==> EvenShareFits(s, i + 1, budget)
  {
    assert |s| - (i + 1) + 1 == |s| - i;
  }

  lemma LastFits(s: seq<nat>, budget: int)
    requires s != [] && EvenShareFits(s, |s|, budget)
    ensures Total(s) <= budget
  {
    TotalMore(s, |s| - 1);
    assert s[..|s|] == s;
  }

  lemma LevelFound(s: seq<nat>, i: nat, budget: int, level: int)
    requires IsSorted(s) && i < |s| && Total(s[..i]) + (|s| - i) * s[i] > budget
    requires EvenShareFits(s, i, budget)
    requires (|s| - i) * level <= budget - Total(s[..i]) < (|s| - i) * (level + 1)
    ensures level >= 0 ==> Shown(s, level) <= budget < Shown(s, level + 1)
    ensures level < 0 ==> budget < 0
  {
    if i > 0 {
      TotalMore(s, i - 1);
      LevelBetween(|s| - i, Total(s[..i]), s[i - 1], s[i], budget, level);
    } else {
      LevelBetween(|s| - i, Total(s[..i]), 0, s[i], budget, level);
    }
    if level >= 0 {
      ShownSorted(s, i, level);
      ShownSorted(s, i, level + 1);
    } else if i == 0 {
      assert s[..0] == [];
      NotNegative(|s|, level + 1);
    }
  }

  lemma NotNegative(n: nat, a: int)
    requires a <= 0
    ensures n * a <= 0
  {
  }

  lemma Divided(a: int, n: nat)
    requires n > 0
    ensures n * (a / n) <= a < n * (a / n + 1)
  {
  }

  // The largest cap under which everything fits; no cap when even the
  // smallest useful one does not.
  lemma NothingYet(s: seq<nat>, budget: int)
    ensures Total(s[..0]) == 0 && EvenShareFits(s, 0, budget)
  {
  }

  method BiggestFirstCap(lengths: seq<nat>, budgetChars: int) returns (cap: Option<nat>)
    ensures Total(lengths) <= budgetChars || lengths == [] ==> cap == Some(9007199254740991)
    ensures Total(lengths) > budgetChars && lengths != [] ==>
      && (cap.Some? <==> Shown(lengths, 160) <= budgetChars)
      && (cap.Some? ==> cap.value >= 160 && Shown(lengths, cap.value) <= budgetChars < Shown(lengths, cap.value + 1))
  {
    hide Total, Shown, Sort, IsSorted, EvenShareFits;
    var sorted := Sort(lengths);
    SortKeeps(lengths, 0);
    NothingYet(sorted, budgetChars);
    var total := 0;
    for i := 0 to |sorted|
      invariant total == Total(sorted[..i])
    {
      TotalMore(sorted, i);
      total := total + sorted[i];
    }
    assert sorted[..|sorted|] == sorted;
    if total <= budgetChars {
      return Some(MAX_SAFE_INTEGER);
    }
    var prefix := 0;
    for i := 0 to |sorted|
      invariant prefix == Total(sorted[..i]) && total > budgetChars
      invariant EvenShareFits(sorted, i, budgetChars)
    {
      NextFits(sorted, i, budgetChars);
      var remainingFiles := |sorted| - i;
      if prefix + remainingFiles * sorted[i] > budgetChars {
        var level := (budgetChars - prefix) / remainingFiles;
        Divided(budgetChars - prefix, remainingFiles);
        LevelFound(sorted, i, budgetChars, level);
        CapChosen(lengths, budgetChars, level);
        return if level >= MIN_PATCH_CHARS then Some(level) else None;
      }
      TotalMore(sorted, i);
      prefix := prefix + sorted[i];
    }
    if sorted != [] {
      LastFits(sorted, budgetChars);
      assert false;
    }
    return Some(MAX_SAFE_INTEGER);
  }

  lemma CapChosen(lengths: seq<nat>, budget: int, level: int)
    requires var s := Sort(lengths);
      if level >= 0 then Shown(s, level) <= budget < Shown(s, level + 1) else budget < 0
    ensures Shown(lengths, MIN_PATCH_CHARS) <= budget <==> level >= MIN_PATCH_CHARS
    ensures level >= 0 ==> Shown(lengths, level) <= budget < Shown(lengths, level + 1)
  {
    if level >= 0 {
      SortKeeps(lengths, level);
      SortKeeps(lengths, level + 1);
      if level >= MIN_PATCH_CHARS {
        ShownGrows(lengths, MIN_PATCH_CHARS, level);
      } else {
        ShownGrows(lengths, level + 1, MIN_PATCH_CHARS);
      }
    }
  }

  // ----- ranking ------------------------------------------------------------

  datatype DiffFile = DiffFile(path: string, patch: string)

  // Source before config before docs: 0, 1 and 2.
  type Weight = n: nat | n < 3

  function InsertRanked(weight: string -> Weight, file: DiffFile, files: seq<DiffFile>): seq<DiffFile> {
    if files == [] || weight(file.path) <= weight(files[0].path) then [file] + files
    else [files[0]] + InsertRanked(weight, file, files[1..])
  }

  // A stable sort: earlier files go before later ones of their weight.
  function RankFiles(weight: string -> Weight, files: seq<DiffFile>): seq<DiffFile> {
    if files == [] then [] else InsertRanked(weight, files[0], RankFiles(weight, files[1..]))
  }

  function OfWeight(weight: string -> Weight, files: seq<DiffFile>, w: nat): seq<DiffFile> {
    if files == [] then [] else (if weight(files[0].path) == w then [files[0]] else []) + OfWeight(weight, files[1..], w)
  }

  predicate InOrder(weight: string -> Weight, files: seq<DiffFile>) {
    forall i, j :: 0 <= i < j < |files| ==> weight(files[i].path) <= weight(files[j].path)
  }

  function Paths(files: seq<DiffFile>): seq<string> {
    if files == [] then [] else [files[0].path] + Paths(files[1..])
  }

  lemma FirstInOrder(weight: string -> Weight, first: DiffFile, rest: seq<DiffFile>)
    requires InOrder(weight, rest) && forall f :: f in rest ==> weight(first.path) <= weight(f.path)
    ensures InOrder(weight, [first] + rest)
  {
    var all := [first] + rest;
    forall i, j | 0 <= i < j < |all| ensures weight(all[i].path) <= weight(all[j].path) {
      assert all[j] == rest[j - 1];
      if i > 0 { assert all[i] == rest[i - 1]; }
    }
  }

  lemma {:induction false} InsertBag(weight: string -> Weight, file: DiffFile, files: seq<DiffFile>)
    ensures multiset(InsertRanked(weight, file, files)) == multiset{file} + multiset(files)
  {
    if files != [] && weight(file.path) > weight(files[0].path) {
      InsertBag(weight, file, files[1..]);
      assert files == [files[0]] + files[1..];
    }
  }

  lemma FirstIsLeast(weight: string -> Weight, files: seq<DiffFile>, f: DiffFile)
    requires InOrder(weight, files) && files != [] && f in files
    ensures weight(files[0].path) <= weight(f.path)
  {
    var k :| 0 <= k < |files| && files[k] == f;
    assert k > 0 ==> weight(files[0].path) <= weight(files[k].path);
  }

  lemma {:induction false} InsertRanks(weight: string -> Weight, file: DiffFile, files: seq<DiffFile>)
    requires InOrder(weight, files)
    ensures InOrder(weight, InsertRanked(weight, file, files))
  {
    if files == [] {
      FirstInOrder(weight, file, files);
    } else if weight(file.path) <= weight(files[0].path) {
      hide InOrder;
      forall f | f in files ensures weight(file.path) <= weight(f.path) { FirstIsLeast(weight, files, f); }
      FirstInOrder(weight, file, files);
    } else {
      var first, rest := files[0], InsertRanked(weight, file, files[1..]);
      InsertRanks(weight, file, files[1..]);
      InsertBag(weight, file, files[1..]);
      hide InOrder;
      forall f | f in rest ensures weight(first.path) <= weight(f.path) {
        assert f in multiset(rest);
        if f != file {
          assert f in multiset(files[1..]);
          FirstIsLeast(weight, files, f);
        }
      }
      FirstInOrder(weight, first, rest);
    }
  }

  lemma OfWeightFirst(weight: string -> Weight, file: DiffFile, files: seq<DiffFile>, w: nat)
    ensures OfWeight(weight, [file] + files, w) == (if weight(file.path) == w then [file] else []) + OfWeight(weight, files, w)
  {
    assert ([file] + files)[1..] == files;
  }

  lemma {:induction false} InsertStable(weight: string -> Weight, file: DiffFile, files: seq<DiffFile>, w: nat)
    ensures OfWeight(weight, InsertRanked(weight, file, files), w) == OfWeight(weight, [file] + files, w)
  {
    hide OfWeight;
    if files != [] && weight(file.path) > weight(files[0].path) {
      var first, tail := files[0], files[1..];
      InsertStable(weight, file, tail, w);
      assert files == [first] + tail;
      OfWeightFirst(weight, first, InsertRanked(weight, file, tail), w);
      OfWeightFirst(weight, file, tail, w);
      OfWeightFirst(weight, first, tail, w);
      OfWeightFirst(weight, file, files, w);
      Empties(OfWeight(weight, tail, w));
    }
  }

  lemma Empties<T>(s: seq<T>)
    ensures [] + s == s && forall x :: [] + ([x] + s) == [x] + s && [x] + ([] + s) == [x] + s
  {
  }

  // The ranking is the source files, the config files and the docs, each in
  // the order they came.
  lemma {:induction false} RanksStably(weight: string -> Weight, files: seq<DiffFile>, w: nat)
    ensures var r := RankFiles(weight, files);
      InOrder(weight, r) && multiset(r) == multiset(files) && OfWeight(weight, r, w) == OfWeight(weight, files, w)
  {
    if files != [] {
      RanksStably(weight, files[1..], w);
      var rest := RankFiles(weight, files[1..]);
      InsertRanks(weight, files[0], rest);
      InsertBag(weight, files[0], rest);
      InsertStable(weight, files[0], rest, w);
      assert files == [files[0]] + files[1..];
      OfWeightFirst(weight, files[0], rest, w);
      OfWeightFirst(weight, files[0], files[1..], w);
      hide InOrder, OfWeight, InsertRanked;
    }
  }

  // ----- the sections -------------------------------------------------------

  const TRUNCATION_MARKER := "\n\U{2026} [truncated]"
  const CHARS_PER_TOKEN := 4

  function SectionHeader(path: string): string {
    "=== " + path + " ===\n"
  }

  function Section(file: DiffFile, cap: nat): string {
    if |file.patch| <= cap then SectionHeader(file.path) + file.patch + "\n"
    else SectionHeader(file.path) + file.patch[..cap] + TRUNCATION_MARKER + "\n"
  }

  function Sections(files: seq<DiffFile>, cap: nat): string {
    if files == [] then "" else Section(files[0], cap) + Sections(files[1..], cap)
  }

  function Reserved(file: DiffFile): nat {
    |SectionHeader(file.path)| + |TRUNCATION_MARKER| + 1
  }

  function Overhead(files: seq<DiffFile>): nat {
    if files == [] then 0 else Reserved(files[0]) + Overhead(files[1..])
  }

  function Lengths(files: seq<DiffFile>): seq<nat> {
    seq(|files|, i requires 0 <= i < |files| => |files[i].patch|)
  }

  // A run of files fits when every patch may have its least allocation.
  predicate Fits(files: seq<DiffFile>, budget: int) {
    files != [] && Overhead(files) + Shown(Lengths(files), MIN_PATCH_CHARS) <= budget
  }

  lemma {:induction false} OverheadMore(files: seq<DiffFile>, k: nat)
    requires k < |files|
    ensures Overhead(files[..k + 1]) == Overhead(files[..k]) + Reserved(files[k])
    ensures forall cap: nat :: Shown(Lengths(files[..k + 1]), cap) == Shown(Lengths(files[..k]), cap) + Min(|files[k].patch|, cap)
  {
    var more, less := files[..k + 1], files[..k];
    if k == 0 {
      assert more == [files[0]] && less == [];
      assert Lengths(more)[1..] == [] && Lengths(less) == [];
    } else {
      assert more[1..] == files[1..][..k] && less[1..] == files[1..][..k - 1];
      OverheadMore(files[1..], k - 1);
      assert Lengths(more)[1..] == Lengths(more[1..]) && Lengths(less)[1..] == Lengths(less[1..]);
    }
  }

  // Dropping the last of a run only frees budget.
  lemma {:induction false} FitsFewer(files: seq<DiffFile>, k: nat, n: nat, budget: int)
    requires 1 <= k <= n <= |files| && Fits(files[..n], budget)
    ensures Fits(files[..k], budget)
    decreases n
  {
    if k < n {
      OverheadMore(files, n - 1);
      FitsFewer(files, k, n - 1, budget);
    }
  }

  lemma {:induction false} SectionsFit(files: seq<DiffFile>, cap: nat)
    ensures |Sections(files, cap)| <= Overhead(files) + Shown(Lengths(files), cap)
  {
    if files != [] {
      SectionsFit(files[1..], cap);
      assert Lengths(files)[1..] == Lengths(files[1..]);
    }
  }

  function Kept(generated: string -> bool, files: seq<DiffFile>, want: bool): seq<DiffFile> {
    if files == [] then [] else
      (if generated(files[0].path) == want then [files[0]] else []) + Kept(generated, files[1..], want)
  }

  lemma {:induction false} KeptBoth(generated: string -> bool, files: seq<DiffFile>)
    ensures multiset(Kept(generated, files, false)) + multiset(Kept(generated, files, true)) == multiset(files)
  {
    if files != [] {
      KeptBoth(generated, files[1..]);
      assert files == [files[0]] + files[1..];
    }
  }

  // The places from some place on, in order, of exactly the files that are
  // generated or not, as wanted.
  ghost predicate ArePlaces(generated: string -> bool, files: seq<DiffFile>, want: bool, from: nat, at: seq<nat>) {
    && (forall i, j :: 0 <= i < j < |at| ==> at[i] < at[j])
    && (forall i :: i in at <==> from <= i < |files| && generated(files[i].path) == want)
  }

  // Such places name the files kept, one by one.
  ghost predicate Name(files: seq<DiffFile>, at: seq<nat>, kept: seq<DiffFile>) {
    |kept| == |at| && forall k :: 0 <= k < |at| ==> at[k] < |files| && kept[k] == files[at[k]]
  }

  lemma FirstPlace(generated: string -> bool, files: seq<DiffFile>, want: bool, from: nat, later: seq<nat>)
    requires from < |files| && ArePlaces(generated, files, want, from + 1, later)
    ensures generated(files[from].path) == want ==> ArePlaces(generated, files, want, from, [from] + later)
    ensures generated(files[from].path) != want ==> ArePlaces(generated, files, want, from, later)
  {
    assert forall k :: 0 <= k < |later| ==> later[k] in later;
  }

  lemma FirstNamed(files: seq<DiffFile>, from: nat, at: seq<nat>, kept: seq<DiffFile>)
    requires from < |files| && Name(files, at, kept)
    ensures Name(files, [from] + at, [files[from]] + kept)
  {
  }

  lemma KeptFrom(generated: string -> bool, files: seq<DiffFile>, want: bool, from: nat)
    requires from < |files|
    ensures Kept(generated, files[from..], want)
         == (if generated(files[from].path) == want then [files[from]] else []) + Kept(generated, files[from + 1..], want)
  {
    assert files[from..][1..] == files[from + 1..];
  }

  lemma NoPlaces(generated: string -> bool, files: seq<DiffFile>, want: bool)
    ensures ArePlaces(generated, files, want, |files|, []) && Name(files, [], Kept(generated, files[|files|..], want))
  {
  }

  // Kept gives the files at exactly those places, in the order given.
  lemma {:induction false} KeptPlaces(generated: string -> bool, files: seq<DiffFile>, want: bool, from: nat) returns (at: seq<nat>)
    requires from <= |files|
    ensures ArePlaces(generated, files, want, from, at) && Name(files, at, Kept(generated, files[from..], want))
    decreases |files| - from
  {
    hide *;
    if from == |files| {
      NoPlaces(generated, files, want);
      return [];
    }
    at := KeptPlaces(generated, files, want, from + 1);
    var kept := Kept(generated, files[from + 1..], want);
    KeptFrom(generated, files, want, from);
    FirstPlace(generated, files, want, from, at);
    FirstNamed(files, from, at, kept);
    if generated(files[from].path) == want {
      at := [from] + at;
    } else {
      assert [] + kept == kept;
    }
  }

  // Each file is kept as often as it was given, or not at all.
  lemma {:induction false} KeptCount(generated: string -> bool, files: seq<DiffFile>, want: bool, file: DiffFile)
    ensures multiset(Kept(generated, files, want))[file]
         == if generated(file.path) == want then multiset(files)[file] else 0
  {
    if files != [] {
      KeptCount(generated, files[1..], want, file);
      assert files == [files[0]] + files[1..];
    }
  }

  // The paths of the generated files, in the order the files were given.
  ghost predicate AreGeneratedPaths(generated: string -> bool, files: seq<DiffFile>, paths: seq<string>) {
    exists at :: ArePlaces(generated, files, true, 0, at) && |paths| == |at|
              && forall k :: 0 <= k < |at| ==> at[k] < |files| && paths[k] == files[at[k]].path
  }

  lemma {:induction false} PathsAre(files: seq<DiffFile>)
    ensures |Paths(files)| == |files| && forall k :: 0 <= k < |files| ==> Paths(files)[k] == files[k].path
  {
    if files != [] {
      PathsAre(files[1..]);
    }
  }

  lemma GeneratedPaths(generated: string -> bool, files: seq<DiffFile>)
    ensures AreGeneratedPaths(generated, files, Paths(Kept(generated, files, true)))
  {
    var at := KeptPlaces(generated, files, true, 0);
    assert files[0..] == files;
    PathsAre(Kept(generated, files, true));
    hide ArePlaces, Kept, Paths;
  }

  lemma ShownAreSources(generated: string -> bool, weight: string -> Weight, files: seq<DiffFile>, n: nat)
    requires n <= |RankFiles(weight, Kept(generated, files, false))|
    ensures forall f :: f in RankFiles(weight, Kept(generated, files, false))[..n] ==> !generated(f.path)
  {
    var kept := Kept(generated, files, false);
    RanksStably(weight, kept, 0);
    hide RankFiles, Kept;
    forall f | f in RankFiles(weight, kept)[..n] ensures !generated(f.path) {
      assert f in multiset(RankFiles(weight, kept));
      KeptCount(generated, files, false, f);
    }
  }

  datatype DiffContext = DiffContext(sections: string, included: seq<DiffFile>, omittedPaths: seq<string>, truncated: bool)

  method CapFor(ranked: seq<DiffFile>, count: nat, overhead: nat, budgetChars: int) returns (cap: Option<nat>)
    requires count <= |ranked| && overhead == Overhead(ranked[..count])
    ensures cap.Some? <==> Fits(ranked[..count], budgetChars)
    ensures cap.Some? ==>
      var lengths := Lengths(ranked[..count]);
      && cap.value >= MIN_PATCH_CHARS
      && overhead + Shown(lengths, cap.value) <= budgetChars
      && (cap.value == MAX_SAFE_INTEGER || budgetChars < overhead + Shown(lengths, cap.value + 1))
  {
    if count == 0 {
      return None;
    }
    var lengths := Lengths(ranked[..count]);
    cap := BiggestFirstCap(lengths, budgetChars - overhead);
    ShownGrows(lengths, MIN_PATCH_CHARS, MAX_SAFE_INTEGER);
  }

  function MaxZero(n: int): nat {
    if n < 0 then 0 else n
  }

  lemma {:induction false} SectionsMore(files: seq<DiffFile>, k: nat, cap: nat)
    requires k < |files|
    ensures Sections(files[..k + 1], cap) == Sections(files[..k], cap) + Section(files[k], cap)
  {
    hide Section;
    if k == 0 {
      assert files[..1] == [files[0]] && files[..0] == [];
    } else {
      assert files[..k + 1][1..] == files[1..][..k] && files[..k][1..] == files[1..][..k - 1];
      SectionsMore(files[1..], k - 1, cap);
    }
  }

  // How many of the files' overheads the budget covers.
  method Overheads(ranked: seq<DiffFile>, budgetChars: nat) returns (overheads: seq<nat>)
    ensures 1 <= |overheads| <= |ranked| + 1
    ensures forall k :: 0 <= k < |overheads| ==> overheads[k] == Overhead(ranked[..k])
    ensures forall k :: |overheads| <= k <= |ranked| ==> !Fits(ranked[..k], budgetChars)
  {
    assert Overhead(ranked[..0]) == 0;
    hide Overhead, Shown;
    overheads := [0];
    for i := 0 to |ranked|
      invariant |overheads| == i + 1
      invariant forall k :: 0 <= k <= i ==> overheads[k] == Overhead(ranked[..k])
    {
      OverheadMore(ranked, i);
      var next := overheads[i] + |SectionHeader(ranked[i].path)| + |TRUNCATION_MARKER| + 1;
      if next > budgetChars {
        forall k | i + 1 <= k <= |ranked| ensures !Fits(ranked[..k], budgetChars) {
          if Fits(ranked[..k], budgetChars) {
            FitsFewer(ranked, i + 1, k, budgetChars);
          }
        }
        return;
      }
      overheads := overheads + [next];
    }
  }

  // How many of the files ranked first can be shown together.
  method LongestRun(ranked: seq<DiffFile>, budgetChars: nat) returns (low: nat, cap: Option<nat>)
    ensures low <= |ranked| && forall k :: 1 <= k <= |ranked| ==> (Fits(ranked[..k], budgetChars) <==> k <= low)
    ensures cap.Some? <==> low > 0
    ensures cap.Some? ==>
      var overhead, lengths := Overhead(ranked[..low]), Lengths(ranked[..low]);
      && overhead + Shown(lengths, cap.value) <= budgetChars
      && (cap.value == MAX_SAFE_INTEGER || budgetChars < overhead + Shown(lengths, cap.value + 1))
  {
    hide Overhead, Shown;
    var overheads := Overheads(ranked, budgetChars);
    low := 0;
    var high: nat := |overheads| - 1;
    while low < high
      invariant low <= high < |overheads|
      invariant low > 0 ==> Fits(ranked[..low], budgetChars)
      invariant forall k :: high < k <= |ranked| ==> !Fits(ranked[..k], budgetChars)
    {
      hide Fits;
      var middle := (low + high + 1) / 2;
      var found := CapFor(ranked, middle, overheads[middle], budgetChars);
      if found.Some? {
        low := middle;
      } else {
        forall k | middle <= k <= |ranked| ensures !Fits(ranked[..k], budgetChars) {
          if Fits(ranked[..k], budgetChars) {
            FitsFewer(ranked, middle, k, budgetChars);
          }
        }
        high := middle - 1;
      }
    }
    forall k | 1 <= k <= low ensures Fits(ranked[..k], budgetChars) {
      FitsFewer(ranked, k, low, budgetChars);
    }
    cap := CapFor(ranked, low, overheads[low], budgetChars);
  }

  method MakeSection(file: DiffFile, cap: nat) returns (section: string, cut: bool)
    ensures section == Section(file, cap) && (cut <==> |file.patch| > cap)
    ensures section == "=== " + file.path + " ===\n" + (if cut then file.patch[..cap] + "\n\U{2026} [truncated]" else file.patch) + "\n"
  {
    if |file.patch| <= cap {
      return SectionHeader(file.path) + file.patch + "\n", false;
    }
    return SectionHeader(file.path) + file.patch[..cap] + TRUNCATION_MARKER + "\n", true;
  }

  predicate AnyCut(files: seq<DiffFile>, cap: nat) {
    exists f :: f in files && |f.patch| > cap
  }

  lemma CutMore(files: seq<DiffFile>, i: nat, cap: nat)
    requires i < |files|
    ensures AnyCut(files[..i + 1], cap) <==> AnyCut(files[..i], cap) || |files[i].patch| > cap
  {
    assert files[..i + 1] == files[..i] + [files[i]];
  }

  method BuildSections(included: seq<DiffFile>, cap: nat) returns (sections: string, truncated: bool)
    ensures sections == Sections(included, cap)
    ensures truncated <==> AnyCut(included, cap)
  {
    truncated := false;
    sections := "";
    assert included[..0] == [];
    for i := 0 to |included|
      invariant sections == Sections(included[..i], cap)
      invariant truncated <==> AnyCut(included[..i], cap)
    {
      SectionsMore(included, i, cap);
      CutMore(included, i, cap);
      hide Sections, Section, AnyCut;
      var section, cut := MakeSection(included[i], cap);
      sections := sections + section;
      truncated := truncated || cut;
    }
    assert included[..|included|] == included;
  }

  lemma NothingKept(weight: string -> Weight, names: seq<string>)
    ensures RankFiles(weight, []) == [] && Sections([], 0) == "" && !AnyCut([], 0) && Paths([]) + names == names
  {
  }

  lemma BudgetIs(budgetTokens: int)
    ensures MaxZero(budgetTokens * CHARS_PER_TOKEN) == if budgetTokens < 0 then 0 else 4 * budgetTokens
  {
  }

  method BuildDiffContext(generated: string -> bool, weight: string -> Weight, files: seq<DiffFile>, budgetTokens: int)
      returns (context: DiffContext, cap: nat)
    requires forall f :: f in files ==> |f.patch| <= MAX_SAFE_INTEGER
    ensures var ranked, budget := RankFiles(weight, Kept(generated, files, false)), MaxZero(budgetTokens * CHARS_PER_TOKEN);
      var n := |context.included|;
      && n <= |ranked| && context.included == ranked[..n]
      // as many of the files ranked first as fit together
      && (forall k :: 1 <= k <= |ranked| ==> (Fits(ranked[..k], budget) <==> k <= n))
      // all cut at one cap, the largest that fits
      && context.sections == Sections(context.included, cap) && |context.sections| <= budget
      && (context.truncated <==> AnyCut(context.included, cap))
      && (context.truncated ==> budget < Overhead(context.included) + Shown(Lengths(context.included), cap + 1))
      && context.omittedPaths == Paths(ranked[n..]) + Paths(Kept(generated, files, true))
    ensures |context.sections| <= if budgetTokens < 0 then 0 else 4 * budgetTokens
    // no generated file is shown, and all of them are named last
    ensures forall f :: f in context.included ==> !generated(f.path)
    ensures var n := |RankFiles(weight, Kept(generated, files, false))| - |context.included|;
      && 0 <= n <= |context.omittedPaths|
      && AreGeneratedPaths(generated, files, context.omittedPaths[n..])
  {
    hide *;
    var kept := Kept(generated, files, false);
    var names := Paths(Kept(generated, files, true));
    BudgetIs(budgetTokens);
    GeneratedPaths(generated, files);
    if kept == [] {
      NothingKept(weight, names);
      assert names[0..] == names;
      return DiffContext("", [], names, false), 0;
    }
    var ranked := RankFiles(weight, kept);
    var budgetChars := MaxZero(budgetTokens * CHARS_PER_TOKEN);
    var low, found := LongestRun(ranked, budgetChars);
    var included := ranked[..low];
    var top := if found.Some? then found.value else 0;
    SectionsFit(included, top);
    NothingShown(included);
    MaxCutsNothing(generated, weight, files, low);
    ShownAreSources(generated, weight, files, low);
    PathsAre(ranked[low..]);
    assert (Paths(ranked[low..]) + names)[|ranked| - low..] == names;
    var sections, truncated := BuildSections(included, top);
    return DiffContext(sections, included, Paths(ranked[low..]) + names, truncated), top;
  }

  // No patch is as long as the cap that stands for no cap.
  lemma MaxCutsNothing(generated: string -> bool, weight: string -> Weight, files: seq<DiffFile>, n: nat)
    requires forall f :: f in files ==> |f.patch| <= MAX_SAFE_INTEGER
    requires n <= |RankFiles(weight, Kept(generated, files, false))|
    ensures !AnyCut(RankFiles(weight, Kept(generated, files, false))[..n], MAX_SAFE_INTEGER)
  {
    var kept := Kept(generated, files, false);
    RanksStably(weight, kept, 0);
    KeptBoth(generated, files);
    hide RankFiles, Kept;
    forall f | f in RankFiles(weight, kept) ensures f in files {
      assert f in multiset(RankFiles(weight, kept));
      assert f in multiset(kept) && f in multiset(files);
    }
  }

  lemma NothingShown(files: seq<DiffFile>)
    ensures files == [] ==> forall cap :: Sections(files, cap) == "" && !AnyCut(files, cap)
  {
  }

  // The files shown, the ranked ones omitted and the generated ones are the
  // files given, each once.
  lemma NoFileLost(generated: string -> bool, weight: string -> Weight, files: seq<DiffFile>, n: nat)
    requires n <= |RankFiles(weight, Kept(generated, files, false))|
    ensures var ranked := RankFiles(weight, Kept(generated, files, false));
      multiset(ranked[..n]) + multiset(ranked[n..]) + multiset(Kept(generated, files, true)) == multiset(files)
  {
    var ranked := RankFiles(weight, Kept(generated, files, false));
    RanksStably(weight, Kept(generated, files, false), 0);
    KeptBoth(generated, files);
    assert ranked[..n] + ranked[n..] == ranked;
    hide RankFiles, Kept;
  }
}
