/** The polling sweep of refs/ in engine/src/watch/watch_manager.cpp: one stat
    per directory, a new listing only where something may have moved. */
module RefSweep {
  import opened Wrappers

  // A directory's path below the repository, "refs" first.
  type Path = seq<string>

  // ----- the file system at one instant -------------------------------------

  datatype File = File(mtime: int, content: string)

  datatype Dir = Dir(mtime: int, files: map<string, File>)

  type Fs = map<Path, Dir>

  const TOP: Path := ["refs"]

  function Parent(p: Path): Path
    requires p != []
  {
    p[..|p| - 1]
  }

  function Last(p: Path): string
    requires p != []
  {
    p[|p| - 1]
  }

  predicate Under(d: Path, p: Path) { d <= p }

  function Subdirs(fs: Fs, d: Path): set<string> {
    set p | p in fs && |p| == |d| + 1 && Under(d, p) :: p[|d|]
  }

  // Every directory but the top one lies in a directory, beside its files.
  ghost predicate IsTree(fs: Fs) {
    forall p :: p in fs ==> Under(TOP, p) && (p != TOP ==> Parent(p) in fs && Last(p) !in fs[Parent(p)].files)
  }

  lemma SubdirsAre(fs: Fs, d: Path, n: string)
    ensures n in Subdirs(fs, d) <==> d + [n] in fs
  {
    if d + [n] in fs { assert (d + [n])[|d|] == n; }
    if n in Subdirs(fs, d) {
      var p :| p in fs && |p| == |d| + 1 && Under(d, p) && p[|d|] == n;
      assert p == d + [n];
    }
  }

  // ----- what a sweep saw ---------------------------------------------------

  datatype Stamp = Stamp(mtime: int, size: nat, content: Option<nat>)

  datatype RefDir = RefDir(mtime: int, racy: bool, files: map<string, Stamp>, dirs: set<string>)

  type Refs = map<Path, RefDir>

  // Entries whose mtime is racySince or later are racy.
  datatype Sweep = Sweep(full: bool, racySince: int)

  const MAX_HASHED_SIZE := 4096

  predicate Hashable(name: string, size: nat) {
    size <= MAX_HASHED_SIZE && name != "index" && name != "packed-refs"
  }

  // Reads no further than one byte past the largest hashed size.
  function ContentHash(hash: string -> nat, file: File): nat {
    hash(if |file.content| > MAX_HASHED_SIZE + 1 then file.content[..MAX_HASHED_SIZE + 1] else file.content)
  }

  function StampOf(hash: string -> nat, name: string, file: File, sweep: Sweep): Stamp {
    Stamp(file.mtime, |file.content|,
          if file.mtime >= sweep.racySince && Hashable(name, |file.content|) then Some(ContentHash(hash, file)) else None)
  }

  // Whether a file changed since it was stamped, as far as a sweep can tell.
  predicate Differs(hash: string -> nat, before: Stamp, file: File) {
    || before.mtime != file.mtime || before.size != |file.content|
    || (before.content.Some? && before.content.value != ContentHash(hash, file))
  }

  // The comparison itself, with the stamp it leaves: a hash is kept only
  // while the file is racy.
  function Compared(hash: string -> nat, before: Stamp, now: Stamp, file: File, sweep: Sweep): (bool, Stamp) {
    if before.mtime != now.mtime || before.size != now.size then (true, now)
    else if before.content.None? then (false, now)
    else
      var content := if now.content.None? then Some(ContentHash(hash, file)) else now.content;
      (content != before.content, if now.mtime < sweep.racySince then now.(content := None) else now.(content := content))
  }

  // Stamps carry a hash only of files that are hashed.
  predicate Sane(name: string, stamp: Stamp) {
    stamp.content.Some? ==> Hashable(name, stamp.size)
  }

  lemma ComparedTells(hash: string -> nat, name: string, before: Stamp, file: File, sweep: Sweep)
    requires Sane(name, before)
    ensures Compared(hash, before, StampOf(hash, name, file, sweep), file, sweep)
      == (Differs(hash, before, file), StampOf(hash, name, file, sweep))
  {
  }

  // A fresh listing of one directory.
  function Listing(hash: string -> nat, fs: Fs, d: Path, sweep: Sweep): RefDir
    requires d in fs
  {
    RefDir(fs[d].mtime, fs[d].mtime >= sweep.racySince,
           map n | n in fs[d].files :: StampOf(hash, n, fs[d].files[n], sweep), Subdirs(fs, d))
  }

  // ----- trees of paths -----------------------------------------------------

  ghost predicate TreeKeys(keys: set<Path>) {
    forall p :: p in keys ==> Under(TOP, p) && (p != TOP ==> Parent(p) in keys)
  }

  function Below(keys: set<Path>, d: Path): set<Path> {
    set p | p in keys && Under(d, p)
  }

  lemma BelowShrinks(keys: set<Path>, d: Path, n: string)
    requires d in keys
    ensures Below(keys, d + [n]) < Below(keys, d)
  {
    assert d in Below(keys, d) && d !in Below(keys, d + [n]);
  }

  lemma {:induction false} Ancestors(keys: set<Path>, p: Path, k: nat)
    requires TreeKeys(keys) && p in keys && 1 <= k <= |p|
    ensures p[..k] in keys
    decreases |p|
  {
    if k == |p| {
      assert p[..k] == p;
    } else {
      Ancestors(keys, Parent(p), k);
      assert Parent(p)[..k] == p[..k];
    }
  }

  // What lies under a directory that is not there is not there.
  lemma AbsentBelow(keys: set<Path>, d: Path, p: Path)
    requires TreeKeys(keys) && d != [] && d !in keys && Under(d, p)
    ensures p !in keys
  {
    assert p[..|d|] == d;
    if p in keys {
      Ancestors(keys, p, |d|);
    }
  }

  ghost predicate IsRefTree(refs: Refs) {
    forall p :: p in refs ==> Under(TOP, p) && (p != TOP ==> Parent(p) in refs && Last(p) in refs[Parent(p)].dirs)
  }

  ghost predicate DirsPresent(refs: Refs) {
    forall p, n :: p in refs && n in refs[p].dirs ==> p + [n] in refs
  }

  // The swept state is a tree whose hashes are of hashed files.
  ghost predicate IsState(refs: Refs) {
    && IsRefTree(refs)
    && DirsPresent(refs)
    && (forall p, n :: p in refs && n in refs[p].files ==> Sane(n, refs[p].files[n]))
  }

  // ----- what counts as changed ---------------------------------------------

  predicate HadFile(refs: Refs, p: Path) {
    |p| > 1 && Parent(p) in refs && Last(p) in refs[Parent(p)].files
  }

  predicate HasFile(fs: Fs, p: Path) {
    |p| > 1 && Parent(p) in fs && Last(p) in fs[Parent(p)].files
  }

  // A file that appeared, vanished or differs.
  predicate FileChanged(hash: string -> nat, refs: Refs, fs: Fs, p: Path) {
    || HadFile(refs, p) != HasFile(fs, p)
    || (HadFile(refs, p) && Differs(hash, refs[Parent(p)].files[Last(p)], fs[Parent(p)].files[Last(p)]))
  }

  // A directory that appeared or vanished.
  predicate DirChanged(refs: Refs, fs: Fs, p: Path) {
    (p in refs) != (p in fs)
  }

  // The directories an incremental sweep does not list again.
  predicate Skipped(refs: Refs, fs: Fs, d: Path, sweep: Sweep) {
    d in refs && d in fs && refs[d].mtime == fs[d].mtime && !refs[d].racy && !sweep.full
  }

  // All that is asked of the directories skipped: no directory appeared or
  // vanished in them.
  ghost predicate SkipKeepsDirs(refs: Refs, fs: Fs, sweep: Sweep) {
    forall d :: Skipped(refs, fs, d, sweep) ==> refs[d].dirs == Subdirs(fs, d)
  }

  // What a sweep leaves of a directory that is there.
  function After(hash: string -> nat, refs: Refs, fs: Fs, d: Path, sweep: Sweep): RefDir
    requires d in fs
  {
    if Skipped(refs, fs, d, sweep) then refs[d] else Listing(hash, fs, d, sweep)
  }

  // ----- one directory of a sweep -------------------------------------------

  // The files and directories of a tree that appeared, or was forgotten.
  predicate NewUnder(fs: Fs, d: Path, p: Path) {
    Under(d, p) && (p in fs || (p != d && HasFile(fs, p)))
  }

  predicate OldUnder(refs: Refs, d: Path, p: Path) {
    Under(d, p) && (p in refs || (p != d && HadFile(refs, p)))
  }

  // Strictly under d, in one of the subdirectories named.
  predicate Within(d: Path, names: set<string>, p: Path) {
    |d| < |p| && Under(d, p) && p[|d|] in names
  }

  predicate IsChild(d: Path, names: set<string>, p: Path) {
    |p| == |d| + 1 && Within(d, names, p)
  }

  lemma WithinOne(d: Path, n: string, p: Path)
    ensures Under(d + [n], p) <==> Within(d, {n}, p)
    ensures Under(d + [n], p) ==> p[..|d| + 1] == d + [n]
  {
    if Within(d, {n}, p) {
      assert p[..|d| + 1] == d + [n];
    }
  }

  lemma WithinSubdirs(fs: Fs, d: Path, p: Path)
    requires IsTree(fs) && p in fs && Under(d, p) && d != [] && p != d
    ensures Within(d, Subdirs(fs, d), p)
  {
    Ancestors(fs.Keys, p, |d| + 1);
    assert p[..|d| + 1] == d + [p[|d|]];
    SubdirsAre(fs, d, p[|d|]);
  }

  // A new tree is its top, the top's files, and the trees below.
  lemma NewSplit(fs: Fs, d: Path, p: Path)
    requires IsTree(fs) && d != [] && d in fs
    ensures NewUnder(fs, d, p) <==>
      || p == d
      || IsChild(d, fs[d].files.Keys, p)
      || (Within(d, Subdirs(fs, d), p) && NewUnder(fs, p[..|d| + 1], p))
  {
    if NewUnder(fs, d, p) && p != d {
      if p in fs {
        WithinSubdirs(fs, d, p);
      } else if |p| > |d| + 1 {
        assert Under(d, Parent(p)) by { assert Parent(p)[..|d|] == p[..|d|] == d; }
        WithinSubdirs(fs, d, Parent(p));
      } else {
        assert Parent(p) == d;
      }
    }
    if IsChild(d, fs[d].files.Keys, p) {
      assert Parent(p) == d;
    }
  }

  // What adding one tree, or the trees of some subdirectories, does to the
  // state and to what is reported.
  ghost predicate Added(hash: string -> nat, was: Refs, refs: Refs, fs: Fs, d: Path, sweep: Sweep) {
    && (forall p :: p in refs <==> p in was || (p in fs && Under(d, p)))
    && (forall p :: p in refs ==> refs[p] == if p in fs && Under(d, p) then Listing(hash, fs, p, sweep) else was[p])
  }

  ghost predicate AddedIn(hash: string -> nat, was: Refs, refs: Refs, fs: Fs, d: Path, names: set<string>, sweep: Sweep) {
    && (forall p :: p in refs <==> p in was || (p in fs && Within(d, names, p)))
    && (forall p :: p in refs ==> refs[p] == if p in fs && Within(d, names, p) then Listing(hash, fs, p, sweep) else was[p])
  }

  ghost predicate NewReported(was: set<Path>, reported: set<Path>, fs: Fs, d: Path) {
    forall p :: p in reported <==> p in was || (d in fs && NewUnder(fs, d, p))
  }

  ghost predicate NewReportedIn(was: set<Path>, reported: set<Path>, fs: Fs, d: Path, names: set<string>) {
    forall p :: p in reported <==> p in was || (Within(d, names, p) && NewUnder(fs, p[..|d| + 1], p))
  }

  lemma AddedNone(hash: string -> nat, was: Refs, reported: set<Path>, fs: Fs, d: Path, sweep: Sweep)
    ensures AddedIn(hash, was, was, fs, d, {}, sweep) && NewReportedIn(reported, reported, fs, d, {})
  {
  }

  lemma AddedNothing(hash: string -> nat, was: Refs, reported: set<Path>, fs: Fs, d: Path, sweep: Sweep)
    requires IsTree(fs) && d != [] && d !in fs
    ensures Added(hash, was, was, fs, d, sweep) && NewReported(reported, reported, fs, d)
  {
    forall p | Under(d, p) ensures p !in fs { AbsentBelow(fs.Keys, d, p); }
  }

  lemma AddedStep(hash: string -> nat, was: Refs, refs: Refs, next: Refs, fs: Fs, d: Path, names: set<string>, n: string, sweep: Sweep)
    requires AddedIn(hash, was, refs, fs, d, names, sweep) && Added(hash, refs, next, fs, d + [n], sweep)
    ensures AddedIn(hash, was, next, fs, d, names + {n}, sweep)
  {
    forall p ensures Under(d + [n], p) <==> Within(d, {n}, p) { WithinOne(d, n, p); }
  }

  lemma AddedAll(hash: string -> nat, was: Refs, refs: Refs, fs: Fs, d: Path, sweep: Sweep)
    requires IsTree(fs) && d in fs && d != []
    requires AddedIn(hash, was[d := Listing(hash, fs, d, sweep)], refs, fs, d, Subdirs(fs, d), sweep)
    ensures Added(hash, was, refs, fs, d, sweep)
  {
    forall p | p in fs && Under(d, p) && p != d ensures Within(d, Subdirs(fs, d), p) { WithinSubdirs(fs, d, p); }
  }

  lemma NewReportedStep(was: set<Path>, reported: set<Path>, next: set<Path>, fs: Fs, d: Path, names: set<string>, n: string)
    requires d + [n] in fs && NewReportedIn(was, reported, fs, d, names) && NewReported(reported, next, fs, d + [n])
    ensures NewReportedIn(was, next, fs, d, names + {n})
  {
    forall p
      ensures Under(d + [n], p) <==> Within(d, {n}, p)
      ensures Under(d + [n], p) ==> p[..|d| + 1] == d + [n]
    { WithinOne(d, n, p); }
  }

  lemma NewReportedAll(was: set<Path>, start: set<Path>, reported: set<Path>, fs: Fs, d: Path)
    requires IsTree(fs) && d != [] && d in fs && NewReportedIn(start, reported, fs, d, Subdirs(fs, d))
    requires forall p :: p in start <==> p in was || p == d || IsChild(d, fs[d].files.Keys, p)
    ensures NewReported(was, reported, fs, d)
  {
    forall p ensures p in reported <==> p in was || NewUnder(fs, d, p) { NewSplit(fs, d, p); }
  }

  // ----- a tree that is forgotten -------------------------------------------

  ghost predicate Dropped(was: Refs, refs: Refs, d: Path) {
    && (forall p :: p in refs <==> p in was && !Under(d, p))
    && (forall p :: p in refs ==> refs[p] == was[p])
  }

  ghost predicate DroppedIn(was: Refs, refs: Refs, d: Path, names: set<string>) {
    && (forall p :: p in refs <==> p in was && !Within(d, names, p))
    && (forall p :: p in refs ==> refs[p] == was[p])
  }

  ghost predicate OldReported(was: set<Path>, reported: set<Path>, refs: Refs, d: Path) {
    forall p :: p in reported <==> p in was || OldUnder(refs, d, p)
  }

  ghost predicate OldReportedIn(was: set<Path>, reported: set<Path>, refs: Refs, d: Path, names: set<string>) {
    forall p :: p in reported <==> p in was || (Within(d, names, p) && OldUnder(refs, p[..|d| + 1], p))
  }

  // Below d, every directory is a subdirectory its parent lists.
  ghost predicate TreeBelow(refs: Refs, d: Path) {
    forall p :: p in refs && Under(d, p) && p != d ==> Parent(p) in refs && Last(p) in refs[Parent(p)].dirs
  }

  lemma {:induction false} AncestorsBelow(refs: Refs, d: Path, p: Path, k: nat)
    requires TreeBelow(refs, d) && p in refs && Under(d, p) && |d| <= k <= |p| && d != []
    ensures p[..k] in refs && (k < |p| ==> p[k] in refs[p[..k]].dirs)
    decreases |p|
  {
    if k == |p| {
      assert p[..k] == p;
    } else if k == |p| - 1 {
      assert p[..k] == Parent(p);
    } else {
      AncestorsBelow(refs, d, Parent(p), k);
      assert Parent(p)[..k] == p[..k];
    }
  }

  lemma WithinDirs(refs: Refs, d: Path, p: Path)
    requires TreeBelow(refs, d) && p in refs && Under(d, p) && d != [] && p != d
    ensures d in refs && Within(d, refs[d].dirs, p)
  {
    assert p[..|d|] == d;
    AncestorsBelow(refs, d, p, |d|);
  }

  lemma DroppedNone(was: Refs, reported: set<Path>, d: Path)
    ensures DroppedIn(was, was, d, {}) && OldReportedIn(reported, reported, was, d, {})
  {
  }

  lemma OldSplit(refs: Refs, d: Path, p: Path)
    requires TreeBelow(refs, d) && d != []
    ensures d in refs ==> (OldUnder(refs, d, p) <==>
      p == d || IsChild(d, refs[d].files.Keys, p) || (Within(d, refs[d].dirs, p) && OldUnder(refs, p[..|d| + 1], p)))
    ensures d !in refs ==> !OldUnder(refs, d, p)
  {
    if OldUnder(refs, d, p) && p != d {
      if p in refs {
        WithinDirs(refs, d, p);
      } else if |p| > |d| + 1 {
        assert Under(d, Parent(p)) by { assert Parent(p)[..|d|] == p[..|d|] == d; }
        WithinDirs(refs, d, Parent(p));
      } else {
        assert Parent(p) == d;
      }
    }
    if d in refs && IsChild(d, refs[d].files.Keys, p) {
      assert Parent(p) == d;
    }
  }

  lemma DroppedNothing(refs: Refs, reported: set<Path>, d: Path)
    requires TreeBelow(refs, d) && d != [] && d !in refs
    ensures Dropped(refs, refs, d) && OldReported(reported, reported, refs, d)
  {
    forall p ensures !OldUnder(refs, d, p) && !(p in refs && Under(d, p)) { OldSplit(refs, d, p); }
  }

  // Dropping one subdirectory leaves its siblings trees.
  lemma DroppedStep(was: Refs, refs: Refs, next: Refs, d: Path, names: set<string>, n: string)
    requires DroppedIn(was, refs, d, names) && Dropped(refs, next, d + [n])
    ensures DroppedIn(was, next, d, names + {n})
  {
    forall p ensures Under(d + [n], p) <==> Within(d, {n}, p) { WithinOne(d, n, p); }
  }

  lemma SiblingKept(was: Refs, refs: Refs, d: Path, names: set<string>, n: string)
    requires DroppedIn(was, refs, d, names) && n !in names && TreeBelow(was, d + [n])
    ensures TreeBelow(refs, d + [n])
    ensures forall p :: OldUnder(refs, d + [n], p) == OldUnder(was, d + [n], p)
  {
    forall p | Under(d + [n], p) ensures !Within(d, names, p) { WithinOne(d, n, p); }
    forall p | Under(d + [n], p) && p != d + [n] ensures Under(d + [n], Parent(p)) {
      assert Parent(p)[..|d| + 1] == p[..|d| + 1];
    }
  }

  lemma OldReportedStep(was: set<Path>, reported: set<Path>, next: set<Path>, start: Refs, refs: Refs, d: Path,
                        names: set<string>, n: string)
    requires OldReportedIn(was, reported, start, d, names) && OldReported(reported, next, refs, d + [n])
    requires forall p :: OldUnder(refs, d + [n], p) == OldUnder(start, d + [n], p)
    ensures OldReportedIn(was, next, start, d, names + {n})
  {
    forall p
      ensures Under(d + [n], p) <==> Within(d, {n}, p)
      ensures Under(d + [n], p) ==> p[..|d| + 1] == d + [n]
    { WithinOne(d, n, p); }
  }

  lemma BelowKept(was: Refs, refs: Refs, d: Path, names: set<string>, n: string)
    requires DroppedIn(was, refs, d, names)
    ensures Below(refs.Keys, d + [n]) <= Below(was.Keys, d)
  {
  }

  lemma SubdirsAreTrees(refs: Refs, d: Path)
    requires TreeBelow(refs, d)
    ensures forall n :: TreeBelow(refs - {d}, d + [n])
  {
    forall n, p | p in refs - {d} && Under(d + [n], p) && p != d + [n]
      ensures Parent(p) in refs - {d} && Last(p) in (refs - {d})[Parent(p)].dirs
    {
      assert Parent(p)[..|d|] == p[..|d|] == d;
      assert |Parent(p)| > |d|;
    }
  }

  lemma DroppedAll(was: Refs, refs: Refs, d: Path)
    requires TreeBelow(was, d) && d != [] && d in was && DroppedIn(was - {d}, refs, d, was[d].dirs)
    ensures Dropped(was, refs, d)
  {
    forall p | p in was && Under(d, p) && p != d ensures Within(d, was[d].dirs, p) { WithinDirs(was, d, p); }
  }

  lemma OldReportedAll(was: set<Path>, start: set<Path>, reported: set<Path>, refs: Refs, d: Path)
    requires TreeBelow(refs, d) && d != [] && d in refs && OldReportedIn(start, reported, refs - {d}, d, refs[d].dirs)
    requires forall p :: p in start <==> p in was || p == d || IsChild(d, refs[d].files.Keys, p)
    ensures OldReported(was, reported, refs, d)
  {
    forall p ensures p in reported <==> p in was || OldUnder(refs, d, p) {
      OldSplit(refs, d, p);
      if Within(d, refs[d].dirs, p) {
        assert OldUnder(refs - {d}, p[..|d| + 1], p) == OldUnder(refs, p[..|d| + 1], p) by {
          assert Parent(p) == d ==> p == p[..|d| + 1];
        }
      }
    }
  }

  // Paths in a subdirectory of d that its new listing no longer has, or has
  // and the state did not.
  predicate Gone(refs: Refs, fs: Fs, d: Path, p: Path)
    requires d in refs
  {
    Within(d, refs[d].dirs - Subdirs(fs, d), p)
  }

  predicate Came(refs: Refs, fs: Fs, d: Path, p: Path)
    requires d in refs
  {
    Within(d, Subdirs(fs, d) - refs[d].dirs, p)
  }

  // ----- one directory of a sweep -------------------------------------------

  predicate FileTells(hash: string -> nat, was: map<string, Stamp>, files: map<string, File>, n: string) {
    || (n in was) != (n in files)
    || (n in was && Differs(hash, was[n], files[n]))
  }

  ghost predicate SweptDir(hash: string -> nat, was: Refs, refs: Refs, fs: Fs, d: Path, sweep: Sweep)
    requires d in was
  {
    if d !in fs then Dropped(was, refs, d)
    else if Skipped(was, fs, d, sweep) then refs == was
    else
      && (forall p :: p in refs <==> (p in was && !Gone(was, fs, d, p)) || (p in fs && Came(was, fs, d, p)))
      && (forall p :: p in refs ==>
            refs[p] == if p == d || (p in fs && Came(was, fs, d, p)) then Listing(hash, fs, p, sweep) else was[p])
  }

  ghost predicate DirReported(hash: string -> nat, was: set<Path>, reported: set<Path>, refs: Refs, fs: Fs, d: Path, sweep: Sweep)
    requires d in refs
  {
    if d !in fs then OldReported(was, reported, refs, d)
    else if Skipped(refs, fs, d, sweep) then reported == was
    else
      forall p :: p in reported <==>
        || p in was
        || (IsChild(d, refs[d].files.Keys + fs[d].files.Keys, p) && FileTells(hash, refs[d].files, fs[d].files, p[|d|]))
        || (Gone(refs, fs, d, p) && OldUnder(refs, p[..|d| + 1], p))
        || (Came(refs, fs, d, p) && NewUnder(fs, p[..|d| + 1], p))
  }

  lemma SweptListed(hash: string -> nat, was: Refs, mid: Refs, refs: Refs, fs: Fs, d: Path, sweep: Sweep)
    requires d in was && d in fs && !Skipped(was, fs, d, sweep)
    requires DroppedIn(was[d := Listing(hash, fs, d, sweep)], mid, d, was[d].dirs - Subdirs(fs, d))
    requires AddedIn(hash, mid, refs, fs, d, Subdirs(fs, d) - was[d].dirs, sweep)
    ensures SweptDir(hash, was, refs, fs, d, sweep)
  {
  }

  lemma DirReportedListed(hash: string -> nat, rep0: set<Path>, rep1: set<Path>, rep2: set<Path>, rep3: set<Path>, was: Refs,
                          fs: Fs, d: Path, sweep: Sweep)
    requires d in was && d in fs && !Skipped(was, fs, d, sweep)
    requires forall p :: p in rep1 <==>
      || p in rep0
      || (IsChild(d, was[d].files.Keys + fs[d].files.Keys, p) && FileTells(hash, was[d].files, fs[d].files, p[|d|]))
    requires OldReportedIn(rep1, rep2, was[d := Listing(hash, fs, d, sweep)], d, was[d].dirs - Subdirs(fs, d))
    requires NewReportedIn(rep2, rep3, fs, d, Subdirs(fs, d) - was[d].dirs)
    ensures DirReported(hash, rep0, rep3, was, fs, d, sweep)
  {
    var now := was[d := Listing(hash, fs, d, sweep)];
    forall p | |d| < |p| ensures OldUnder(now, p[..|d| + 1], p) == OldUnder(was, p[..|d| + 1], p) {
      assert Parent(p) == d ==> p == p[..|d| + 1];
    }
  }

  lemma RelistedTrees(refs: Refs, d: Path, dir: RefDir)
    requires TreeBelow(refs, d) && d != [] && d in refs
    ensures forall n :: TreeBelow(refs[d := dir], d + [n])
  {
    forall n, p | p in refs[d := dir] && Under(d + [n], p) && p != d + [n]
      ensures Parent(p) in refs && Parent(p) != d && Last(p) in refs[Parent(p)].dirs
    {
      assert Parent(p)[..|d|] == p[..|d|] == d;
      assert |Parent(p)| > |d|;
    }
  }

  // ----- a whole sweep ------------------------------------------------------

  // What a sweep reports.
  predicate Reportable(hash: string -> nat, refs: Refs, fs: Fs, sweep: Sweep, p: Path) {
    || DirChanged(refs, fs, p)
    || (FileChanged(hash, refs, fs, p) && !Skipped(refs, fs, Parent(p), sweep))
  }

  // A directory the sweep is done with: looked at, or new.
  predicate Settled(start: Refs, done: set<Path>, p: Path) {
    p in done || p !in start
  }

  ghost predicate SettledMatch(hash: string -> nat, start: Refs, refs: Refs, fs: Fs, done: set<Path>, sweep: Sweep) {
    forall p :: p in refs && Settled(start, done, p) ==> p in fs && refs[p] == After(hash, start, fs, p, sweep)
  }

  ghost predicate RestKept(start: Refs, refs: Refs, done: set<Path>) {
    forall p :: p in refs && !Settled(start, done, p) ==> refs[p] == start[p]
  }

  ghost predicate Complete(start: Refs, refs: Refs, fs: Fs, done: set<Path>) {
    forall p :: p in fs && |p| > 1 && Parent(p) in refs && Settled(start, done, Parent(p)) ==> p in refs
  }

  ghost predicate NoneLost(start: Refs, refs: Refs, fs: Fs) {
    forall p :: p in start && p in fs ==> p in refs
  }

  ghost predicate Midway(hash: string -> nat, start: Refs, refs: Refs, fs: Fs, done: set<Path>, sweep: Sweep) {
    && IsRefTree(refs)
    && SettledMatch(hash, start, refs, fs, done, sweep)
    && RestKept(start, refs, done)
    && Complete(start, refs, fs, done)
    && NoneLost(start, refs, fs)
  }

  // Under a subdirectory that is gone there is nothing, and under one that
  // came there was nothing.
  lemma GoneAbsent(refs: Refs, fs: Fs, d: Path, p: Path)
    requires IsTree(fs) && d in refs && Gone(refs, fs, d, p)
    ensures p !in fs
  {
    SubdirsAre(fs, d, p[|d|]);
    WithinOne(d, p[|d|], p);
    AbsentBelow(fs.Keys, d + [p[|d|]], p);
  }

  lemma CameNew(start: Refs, refs: Refs, fs: Fs, d: Path, p: Path)
    requires IsState(start) && d in refs && d in start && refs[d] == start[d] && Came(refs, fs, d, p)
    ensures p !in start
  {
    var n := p[|d|];
    WithinOne(d, n, p);
    assert Parent(d + [n]) == d && Last(d + [n]) == n;
    AbsentBelow(start.Keys, d + [n], p);
  }

  // What was there stays below a directory that stays, and what came hangs on
  // one there.
  lemma StepHangs(hash: string -> nat, refs: Refs, next: Refs, fs: Fs, d: Path, sweep: Sweep, p: Path)
    requires IsRefTree(refs) && IsTree(fs) && d in refs && SweptDir(hash, refs, next, fs, d, sweep) && p in next && p in refs && p != TOP
    ensures Under(TOP, p) && Parent(p) in next && Last(p) in next[Parent(p)].dirs
  {
    ParentWithin(d, p);
    if d in fs && !Skipped(refs, fs, d, sweep) {
      if Under(d, p) && p != d { WithinDirs(refs, d, p); }
    }
  }

  // What came is there, below a subdirectory that came, and so is its parent.
  lemma CameHangs(hash: string -> nat, refs: Refs, next: Refs, fs: Fs, d: Path, sweep: Sweep, p: Path)
    requires d in refs && SweptDir(hash, refs, next, fs, d, sweep) && p in next && p !in refs && p != TOP && IsTree(fs)
    ensures p in fs && Parent(p) in fs && Parent(p) in next && next[Parent(p)] == Listing(hash, fs, Parent(p), sweep)
  {
    ParentWithin(d, p);
  }

  lemma ListedLast(hash: string -> nat, fs: Fs, sweep: Sweep, p: Path)
    requires IsTree(fs) && p in fs && p != TOP && p != [] && Parent(p) in fs
    ensures Under(TOP, p) && Last(p) in Listing(hash, fs, Parent(p), sweep).dirs
  {
    assert Parent(p) + [Last(p)] == p;
    SubdirsAre(fs, Parent(p), Last(p));
  }

  lemma StepCame(hash: string -> nat, refs: Refs, next: Refs, fs: Fs, d: Path, sweep: Sweep, p: Path)
    requires IsTree(fs) && d in refs && SweptDir(hash, refs, next, fs, d, sweep) && p in next && p !in refs && p != TOP && p != []
    ensures Under(TOP, p) && Parent(p) in next && Last(p) in next[Parent(p)].dirs
  {
    hide *;
    CameHangs(hash, refs, next, fs, d, sweep, p);
    ListedLast(hash, fs, sweep, p);
  }

  lemma StepTree(hash: string -> nat, refs: Refs, next: Refs, fs: Fs, d: Path, sweep: Sweep)
    requires IsRefTree(refs) && IsTree(fs) && d in refs && SweptDir(hash, refs, next, fs, d, sweep)
    ensures IsRefTree(next)
  {
    forall p | p in next
      ensures Under(TOP, p) && (p != TOP ==> Parent(p) in next && Last(p) in next[Parent(p)].dirs)
    {
      if p == TOP {
      } else if p !in refs {
        StepCame(hash, refs, next, fs, d, sweep, p);
      } else {
        StepHangs(hash, refs, next, fs, d, sweep, p);
      }
      hide SweptDir, IsTree;
    }
  }

  lemma ParentWithin(d: Path, p: Path)
    requires p != []
    ensures Parent(p) == d ==> |p| == |d| + 1 && Under(d, p) && p == d + [p[|d|]] && Last(p) == p[|d|]
    ensures |d| < |Parent(p)| && Under(d, Parent(p)) ==> |d| < |p| && Under(d, p) && p[|d|] == Parent(p)[|d|]
    ensures |d| < |p| && Under(d, p) ==> Parent(p) == d || (|d| < |Parent(p)| && Under(d, Parent(p)) && p[|d|] == Parent(p)[|d|])
  {
    assert p == Parent(p) + [Last(p)];
  }

  lemma StepMatch(hash: string -> nat, start: Refs, refs: Refs, next: Refs, fs: Fs, done: set<Path>, d: Path, sweep: Sweep)
    requires IsState(start) && IsTree(fs) && Midway(hash, start, refs, fs, done, sweep)
    requires d in refs && d in start && d !in done && SweptDir(hash, refs, next, fs, d, sweep)
    ensures SettledMatch(hash, start, next, fs, done + {d}, sweep) && RestKept(start, next, done + {d})
    ensures NoneLost(start, next, fs)
  {
    forall p | d in fs && Gone(refs, fs, d, p) ensures p !in fs { GoneAbsent(refs, fs, d, p); }
    forall p | d in fs && Came(refs, fs, d, p) ensures p !in start { CameNew(start, refs, fs, d, p); }
    forall p | d !in fs && Under(d, p) ensures p !in fs { AbsentBelow(fs.Keys, d, p); }
  }

  lemma StepComplete(hash: string -> nat, start: Refs, refs: Refs, next: Refs, fs: Fs, done: set<Path>, d: Path, sweep: Sweep)
    requires IsState(start) && IsTree(fs) && SkipKeepsDirs(start, fs, sweep) && Midway(hash, start, refs, fs, done, sweep)
    requires d in refs && d in start && d !in done && SweptDir(hash, refs, next, fs, d, sweep)
    ensures Complete(start, next, fs, done + {d})
  {
    forall p | p in fs && |p| > 1 && Parent(p) in next && Settled(start, done + {d}, Parent(p)) ensures p in next {
      ParentWithin(d, p);
      if d !in fs {
        AbsentBelow(fs.Keys, d, d);
        if Under(d, p) { AbsentBelow(fs.Keys, d, p); }
      } else if Parent(p) == d {
        SubdirsAre(fs, d, Last(p));
        if Last(p) in start[d].dirs {
          assert p in start;
        }
      } else if Parent(p) in refs {
        if Gone(refs, fs, d, p) { GoneAbsent(refs, fs, d, p); }
      }
    }
  }

  // What has been reported part way: the directories that came or went, and
  // the files of the directories done with.
  predicate FileDone(hash: string -> nat, start: Refs, refs: Refs, fs: Fs, done: set<Path>, sweep: Sweep, p: Path) {
    && FileChanged(hash, start, fs, p)
    && ((Parent(p) in start) != (Parent(p) in refs) || (Parent(p) in done && !Skipped(start, fs, Parent(p), sweep)))
  }

  ghost predicate MidReport(hash: string -> nat, start: Refs, refs: Refs, fs: Fs, done: set<Path>, sweep: Sweep,
                            was: set<Path>, reported: set<Path>) {
    forall p :: p in reported <==>
      p in was || (p in start) != (p in refs) || FileDone(hash, start, refs, fs, done, sweep, p)
  }

  lemma StepReportGone(hash: string -> nat, start: Refs, refs: Refs, next: Refs, fs: Fs, done: set<Path>, d: Path, sweep: Sweep,
                       was: set<Path>, rep: set<Path>, reported: set<Path>)
    requires IsTree(fs) && Midway(hash, start, refs, fs, done, sweep) && MidReport(hash, start, refs, fs, done, sweep, was, rep)
    requires d in refs && d in start && d !in done && d !in fs
    requires Dropped(refs, next, d) && OldReported(rep, reported, refs, d)
    ensures MidReport(hash, start, next, fs, done + {d}, sweep, was, reported)
  {
    forall p ensures p in reported <==>
      p in was || (p in start) != (p in next) || FileDone(hash, start, next, fs, done + {d}, sweep, p)
    {
      if Under(d, p) { AbsentBelow(fs.Keys, d, p); }
      if |p| > 1 {
        ParentWithin(d, p);
        if Under(d, Parent(p)) { AbsentBelow(fs.Keys, d, Parent(p)); }
      }
    }
  }

  lemma StepReportListed(hash: string -> nat, start: Refs, refs: Refs, next: Refs, fs: Fs, done: set<Path>, d: Path, sweep: Sweep,
                         was: set<Path>, rep: set<Path>, reported: set<Path>)
    requires IsState(start) && IsTree(fs)
    requires Midway(hash, start, refs, fs, done, sweep) && MidReport(hash, start, refs, fs, done, sweep, was, rep)
    requires d in refs && d in start && d !in done && d in fs && !Skipped(refs, fs, d, sweep)
    requires SweptDir(hash, refs, next, fs, d, sweep) && DirReported(hash, rep, reported, refs, fs, d, sweep)
    ensures MidReport(hash, start, next, fs, done + {d}, sweep, was, reported)
  {
    forall p ensures p in reported <==>
      p in was || (p in start) != (p in next) || FileDone(hash, start, next, fs, done + {d}, sweep, p)
    {
      if |d| + 1 < |p| && Under(d, p) {
        ListedDeeper(hash, start, refs, next, fs, done, d, sweep, p);
      } else if |d| < |p| && Under(d, p) {
        ListedChild(hash, start, refs, next, fs, done, d, sweep, p);
      } else {
        ListedAway(hash, start, refs, next, fs, done, d, sweep, p);
      }
    }
  }

  lemma MemberAway(hash: string -> nat, refs: Refs, next: Refs, fs: Fs, d: Path, sweep: Sweep, p: Path)
    requires d in refs && d in fs && SweptDir(hash, refs, next, fs, d, sweep) && !(|d| < |p| && Under(d, p))
    ensures p in next <==> p in refs
  {
  }

  // Away from d nothing is added to what has been reported.
  lemma ListedAway(hash: string -> nat, start: Refs, refs: Refs, next: Refs, fs: Fs, done: set<Path>, d: Path, sweep: Sweep, p: Path)
    requires IsState(start) && IsTree(fs) && Midway(hash, start, refs, fs, done, sweep)
    requires d in refs && d in start && d !in done && d in fs && !Skipped(refs, fs, d, sweep) && !(|d| < |p| && Under(d, p))
    requires SweptDir(hash, refs, next, fs, d, sweep)
    ensures ((p in start) != (p in next) || FileDone(hash, start, next, fs, done + {d}, sweep, p)) <==>
      || (p in start) != (p in refs)
      || FileDone(hash, start, refs, fs, done, sweep, p)
  {
    assert FileChanged(hash, start, fs, p) ==> |p| > 1;
    hide SweptDir, Midway, IsState, IsTree, FileChanged, Skipped;
    MemberAway(hash, refs, next, fs, d, sweep, p);
    if |p| > 1 {
      ParentWithin(d, p);
      MemberAway(hash, refs, next, fs, d, sweep, Parent(p));
      assert Parent(p) != d;
    }
  }

  lemma ListedChild(hash: string -> nat, start: Refs, refs: Refs, next: Refs, fs: Fs, done: set<Path>, d: Path, sweep: Sweep, p: Path)
    requires IsState(start) && IsTree(fs) && Midway(hash, start, refs, fs, done, sweep)
    requires d in refs && d in start && d !in done && d in fs && !Skipped(refs, fs, d, sweep) && |p| == |d| + 1 && Under(d, p)
    requires SweptDir(hash, refs, next, fs, d, sweep)
    ensures ((p in start) != (p in next) || FileDone(hash, start, next, fs, done + {d}, sweep, p)) <==>
      || (p in start) != (p in refs)
      || FileDone(hash, start, refs, fs, done, sweep, p)
      || (IsChild(d, refs[d].files.Keys + fs[d].files.Keys, p) && FileTells(hash, refs[d].files, fs[d].files, p[|d|]))
      || (Gone(refs, fs, d, p) && OldUnder(refs, p[..|d| + 1], p))
      || (Came(refs, fs, d, p) && NewUnder(fs, p[..|d| + 1], p))
  {
    ParentWithin(d, p);
    if Gone(refs, fs, d, p) { GoneAbsent(refs, fs, d, p); }
    if Came(refs, fs, d, p) { CameNew(start, refs, fs, d, p); }
  }

  lemma ListedDeeper(hash: string -> nat, start: Refs, refs: Refs, next: Refs, fs: Fs, done: set<Path>, d: Path, sweep: Sweep, p: Path)
    requires IsState(start) && IsTree(fs) && Midway(hash, start, refs, fs, done, sweep)
    requires d in refs && d in start && d !in done && d in fs && !Skipped(refs, fs, d, sweep) && |d| + 1 < |p| && Under(d, p)
    requires SweptDir(hash, refs, next, fs, d, sweep)
    ensures ((p in start) != (p in next) || FileDone(hash, start, next, fs, done + {d}, sweep, p)) <==>
      || (p in start) != (p in refs)
      || FileDone(hash, start, refs, fs, done, sweep, p)
      || (IsChild(d, refs[d].files.Keys + fs[d].files.Keys, p) && FileTells(hash, refs[d].files, fs[d].files, p[|d|]))
      || (Gone(refs, fs, d, p) && OldUnder(refs, p[..|d| + 1], p))
      || (Came(refs, fs, d, p) && NewUnder(fs, p[..|d| + 1], p))
  {
    ParentWithin(d, p);
    if Gone(refs, fs, d, p) { GoneAbsent(refs, fs, d, p); }
    if Came(refs, fs, d, p) { CameNew(start, refs, fs, d, p); }
    if Gone(refs, fs, d, Parent(p)) { GoneAbsent(refs, fs, d, Parent(p)); }
    if Came(refs, fs, d, Parent(p)) { CameNew(start, refs, fs, d, Parent(p)); }
  }

  lemma StepMidway(hash: string -> nat, start: Refs, refs: Refs, next: Refs, fs: Fs, done: set<Path>, d: Path, sweep: Sweep)
    requires IsState(start) && IsTree(fs) && SkipKeepsDirs(start, fs, sweep) && Midway(hash, start, refs, fs, done, sweep)
    requires d in refs && d in start && d !in done && SweptDir(hash, refs, next, fs, d, sweep)
    ensures Midway(hash, start, next, fs, done + {d}, sweep)
  {
    hide SweptDir, IsState, IsTree, SkipKeepsDirs;
    StepTree(hash, refs, next, fs, d, sweep);
    StepMatch(hash, start, refs, next, fs, done, d, sweep);
    StepComplete(hash, start, refs, next, fs, done, d, sweep);
  }

  lemma StepReport(hash: string -> nat, start: Refs, refs: Refs, next: Refs, fs: Fs, done: set<Path>, d: Path, sweep: Sweep,
                   was: set<Path>, rep: set<Path>, reported: set<Path>)
    requires IsState(start) && IsTree(fs)
    requires Midway(hash, start, refs, fs, done, sweep) && MidReport(hash, start, refs, fs, done, sweep, was, rep)
    requires d in refs && d in start && d !in done
    requires SweptDir(hash, refs, next, fs, d, sweep) && DirReported(hash, rep, reported, refs, fs, d, sweep)
    ensures MidReport(hash, start, next, fs, done + {d}, sweep, was, reported)
  {
    hide IsState, IsTree;
    if d !in fs {
      StepReportGone(hash, start, refs, next, fs, done, d, sweep, was, rep, reported);
    } else if !Skipped(refs, fs, d, sweep) {
      StepReportListed(hash, start, refs, next, fs, done, d, sweep, was, rep, reported);
    }
  }

  lemma SweepStarts(hash: string -> nat, start: Refs, fs: Fs, sweep: Sweep, reported: set<Path>)
    requires IsState(start) && start != map[]
    ensures TOP in start && Midway(hash, start, start, fs, {}, sweep)
    ensures MidReport(hash, start, start, fs, {}, sweep, reported, reported)
  {
    var p :| p in start;
    Ancestors(start.Keys, p, 1);
    assert p[..1] == TOP;
  }

  // The directories of the state, in any order.
  ghost predicate Lists(order: seq<Path>, keys: set<Path>) {
    (forall p :: p in keys <==> p in order) && forall i, j :: 0 <= i < j < |order| ==> order[i] != order[j]
  }

  // A directory about to be looked at is as it was, with a tree below it.
  lemma MidwayDir(hash: string -> nat, start: Refs, refs: Refs, fs: Fs, order: seq<Path>, i: nat, done: set<Path>, sweep: Sweep)
    requires IsState(start) && Midway(hash, start, refs, fs, done, sweep) && Lists(order, start.Keys)
    requires i < |order| && forall p :: p in done <==> p in order[..i]
    ensures order[i] in start && order[i] !in done
    ensures order[i] in refs ==> Under(TOP, order[i]) && TreeBelow(refs, order[i])
    ensures order[i] in refs ==> refs[order[i]] == start[order[i]] && forall n :: n in refs[order[i]].files ==> Sane(n, refs[order[i]].files[n])
  {
    assert order[i] in start;
  }

  // A directory already dropped with its parent.
  lemma MidwayAway(hash: string -> nat, start: Refs, refs: Refs, fs: Fs, done: set<Path>, d: Path, sweep: Sweep,
                   was: set<Path>, reported: set<Path>)
    requires Midway(hash, start, refs, fs, done, sweep) && MidReport(hash, start, refs, fs, done, sweep, was, reported)
    requires d !in refs && d in start
    ensures Midway(hash, start, refs, fs, done + {d}, sweep)
    ensures MidReport(hash, start, refs, fs, done + {d}, sweep, was, reported)
  {
  }

  // What a sweep leaves behind: every directory there, listed anew or, when
  // skipped, as it was.
  ghost predicate SweptAll(hash: string -> nat, start: Refs, refs: Refs, fs: Fs, sweep: Sweep) {
    refs.Keys == fs.Keys && forall p :: p in fs ==> refs[p] == After(hash, start, fs, p, sweep)
  }

  ghost predicate AllReported(hash: string -> nat, start: Refs, fs: Fs, sweep: Sweep, was: set<Path>, reported: set<Path>) {
    forall p :: p in reported <==> p in was || Reportable(hash, start, fs, sweep, p)
  }

  lemma {:induction false} AllThere(hash: string -> nat, start: Refs, refs: Refs, fs: Fs, sweep: Sweep, p: Path)
    requires IsState(start) && IsTree(fs) && TOP in start && Midway(hash, start, refs, fs, start.Keys, sweep) && p in fs
    ensures p in refs
    decreases |p|
  {
    if p != TOP {
      AllThere(hash, start, refs, fs, sweep, Parent(p));
    }
  }

  lemma SweepEnds(hash: string -> nat, start: Refs, refs: Refs, fs: Fs, sweep: Sweep, was: set<Path>, reported: set<Path>)
    requires IsState(start) && IsTree(fs) && TOP in start && Midway(hash, start, refs, fs, start.Keys, sweep)
    requires MidReport(hash, start, refs, fs, start.Keys, sweep, was, reported)
    ensures SweptAll(hash, start, refs, fs, sweep) && AllReported(hash, start, fs, sweep, was, reported)
  {
    forall p | p in fs ensures p in refs { AllThere(hash, start, refs, fs, sweep, p); }
    assert refs.Keys == fs.Keys;
    forall p ensures p in reported <==> p in was || Reportable(hash, start, fs, sweep, p) {
    }
  }

  lemma SweptAt(hash: string -> nat, start: Refs, refs: Refs, fs: Fs, sweep: Sweep, p: Path)
    requires IsState(start) && SkipKeepsDirs(start, fs, sweep) && SweptAll(hash, start, refs, fs, sweep) && p in refs
    ensures p in fs && refs[p].dirs == Subdirs(fs, p) && forall n :: n in refs[p].files ==> Sane(n, refs[p].files[n])
  {
  }

  lemma SweptIsState(hash: string -> nat, start: Refs, refs: Refs, fs: Fs, sweep: Sweep)
    requires IsState(start) && IsTree(fs) && SkipKeepsDirs(start, fs, sweep) && SweptAll(hash, start, refs, fs, sweep)
    ensures IsState(refs)
  {
    assert refs.Keys == fs.Keys;
    forall p | p in refs
      ensures refs[p].dirs == Subdirs(fs, p) && forall n :: n in refs[p].files ==> Sane(n, refs[p].files[n])
    {
      hide *;
      SweptAt(hash, start, refs, fs, sweep, p);
    }
    hide IsRefTree, DirsPresent, SweptAll;
    DirsTree(refs, fs);
  }

  lemma DirsTree(refs: Refs, fs: Fs)
    requires IsTree(fs) && refs.Keys == fs.Keys && forall p :: p in refs ==> refs[p].dirs == Subdirs(fs, p)
    ensures IsRefTree(refs) && DirsPresent(refs)
  {
    hide Subdirs;
    assert DirsPresent(refs) by {
      forall p, n | p in refs && n in refs[p].dirs ensures p + [n] in refs { SubdirsAre(fs, p, n); }
    }
    forall p | p in refs
      ensures Under(TOP, p) && (p != TOP ==> Parent(p) in refs && Last(p) in refs[Parent(p)].dirs)
    {
      hide DirsPresent, IsTree;
      ParentListed(fs, p);
    }
  }

  lemma ParentListed(fs: Fs, p: Path)
    requires IsTree(fs) && p in fs
    ensures Under(TOP, p) && (p != TOP ==> Parent(p) in fs && Last(p) in Subdirs(fs, Parent(p)))
  {
    if p != TOP {
      assert Parent(p) + [Last(p)] == p;
      SubdirsAre(fs, Parent(p), Last(p));
    }
  }

  // The first sweep lists everything and reports everything.
  lemma FirstSweep(hash: string -> nat, refs: Refs, fs: Fs, sweep: Sweep, was: set<Path>, reported: set<Path>)
    requires IsTree(fs) && Added(hash, map[], refs, fs, TOP, sweep) && NewReported(was, reported, fs, TOP)
    ensures SweptAll(hash, map[], refs, fs, sweep) && AllReported(hash, map[], fs, sweep, was, reported)
  {
    assert refs.Keys == fs.Keys;
    forall p ensures NewUnder(fs, TOP, p) && TOP in fs <==> Reportable(hash, map[], fs, sweep, p) {
      if Reportable(hash, map[], fs, sweep, p) {
        var q := if p in fs then p else Parent(p);
        Ancestors(fs.Keys, q, 1);
        assert q[..1] == TOP;
        if p !in fs { assert p[..1] == q[..1]; }
      }
    }
  }

  // ----- the sweep, in place ------------------------------------------------

  class RefRoot {
    const hash: string -> nat
    const categorize: Path -> string
    var refs: Refs
    var pending: set<string>
    ghost var reported: set<Path>

    // The categories reported are those of the paths reported.
    ghost predicate Valid()
      reads this
    {
      pending == set p | p in reported && categorize(p) != "" :: categorize(p)
    }

    constructor (hash: string -> nat, categorize: Path -> string)
      ensures Valid() && refs == map[] && reported == {} && this.hash == hash && this.categorize == categorize
    {
      this.hash, this.categorize := hash, categorize;
      refs, pending, reported := map[], {}, {};
    }

    method Report(p: Path)
      requires Valid()
      modifies this`pending, this`reported
      ensures Valid() && reported == old(reported) + {p}
    {
      var category := categorize(p);
      if category != "" {
        pending := pending + {category};
      }
      reported := reported + {p};
    }

    method ReportAll(rel: Path, names: set<string>)
      requires Valid()
      modifies this`pending, this`reported
      ensures Valid() && forall p :: p in reported <==> p in old(reported) || IsChild(rel, names, p)
    {
      var todo := names;
      while todo != {}
        invariant todo <= names && Valid()
        invariant forall p :: p in reported <==> p in old(reported) || IsChild(rel, names - todo, p)
      {
        var n :| n in todo;
        Report(rel + [n]);
        assert forall p :: IsChild(rel, names - (todo - {n}), p) <==> IsChild(rel, names - todo, p) || p == rel + [n];
        todo := todo - {n};
      }
    }

    // Adds d and every directory below it.
    method AddRefTree(fs: Fs, d: Path, reportNew: bool, sweep: Sweep)
      requires Valid() && IsTree(fs) && Under(TOP, d)
      modifies this`refs, this`pending, this`reported
      ensures Valid() && Added(hash, old(refs), refs, fs, d, sweep)
      ensures if reportNew then NewReported(old(reported), reported, fs, d) else reported == old(reported)
      decreases Below(fs.Keys, d), 1
    {
      hide AddedIn, NewReportedIn, Added, NewReported, NewUnder, IsTree, StampOf;
      if d !in fs {
        AddedNothing(hash, refs, reported, fs, d, sweep);
        return;
      }
      var listed := Listing(hash, fs, d, sweep);
      if reportNew {
        Report(d);
        ReportAll(d, listed.files.Keys);
      }
      ghost var rep := reported;
      refs := refs[d := listed];
      AddSubdirs(fs, d, listed.dirs, reportNew, sweep);
      AddedAll(hash, old(refs), refs, fs, d, sweep);
      if reportNew {
        NewReportedAll(old(reported), rep, reported, fs, d);
      }
    }

    method AddSubdirs(fs: Fs, d: Path, names: set<string>, reportNew: bool, sweep: Sweep)
      requires Valid() && IsTree(fs) && Under(TOP, d) && d in fs && names <= Subdirs(fs, d)
      modifies this`refs, this`pending, this`reported
      ensures Valid() && AddedIn(hash, old(refs), refs, fs, d, names, sweep)
      ensures if reportNew then NewReportedIn(old(reported), reported, fs, d, names) else reported == old(reported)
      decreases Below(fs.Keys, d), 0
    {
      hide AddedIn, NewReportedIn, Added, NewReported, NewUnder, IsTree, StampOf;
      var todo := names;
      AddedNone(hash, refs, reported, fs, d, sweep);
      assert names - todo == {};
      while todo != {}
        invariant todo <= names && Valid()
        invariant AddedIn(hash, old(refs), refs, fs, d, names - todo, sweep)
        invariant if reportNew then NewReportedIn(old(reported), reported, fs, d, names - todo) else reported == old(reported)
      {
        var n :| n in todo;
        BelowShrinks(fs.Keys, d, n);
        SubdirsAre(fs, d, n);
        label Before:
        AddRefTree(fs, d + [n], reportNew, sweep);
        AddedStep(hash, old(refs), old@Before(refs), refs, fs, d, names - todo, n, sweep);
        if reportNew {
          NewReportedStep(old(reported), old@Before(reported), reported, fs, d, names - todo, n);
        }
        assert names - todo + {n} == names - (todo - {n});
        todo := todo - {n};
      }
      assert names - todo == names;
    }

    // Forgets d and every directory below it.
    method DropRefTree(d: Path)
      requires Valid() && d != [] && TreeBelow(refs, d)
      modifies this`refs, this`pending, this`reported
      ensures Valid() && Dropped(old(refs), refs, d)
      ensures OldReported(old(reported), reported, old(refs), d)
      decreases Below(refs.Keys, d), 1
    {
      hide DroppedIn, OldReportedIn, Dropped, OldReported, OldUnder, TreeBelow;
      if d !in refs {
        DroppedNothing(refs, reported, d);
        return;
      }
      Report(d);
      ReportAll(d, refs[d].files.Keys);
      ghost var rep := reported;
      var subdirs := refs[d].dirs;
      SubdirsAreTrees(refs, d);
      refs := refs - {d};
      assert d in old(refs) && d !in refs && refs.Keys <= old(refs.Keys);
      assert d in Below(old(refs.Keys), d) && d !in Below(refs.Keys, d);
      assert Below(refs.Keys, d) < Below(old(refs.Keys), d);
      DropSubdirs(d, subdirs);
      DroppedAll(old(refs), refs, d);
      OldReportedAll(old(reported), rep, reported, old(refs), d);
    }

    method DropSubdirs(d: Path, names: set<string>)
      requires Valid() && d != [] && forall n :: n in names ==> TreeBelow(refs, d + [n])
      modifies this`refs, this`pending, this`reported
      ensures Valid() && DroppedIn(old(refs), refs, d, names)
      ensures OldReportedIn(old(reported), reported, old(refs), d, names)
      decreases Below(refs.Keys, d), 2
    {
      hide DroppedIn, OldReportedIn, Dropped, OldReported, OldUnder, TreeBelow;
      var todo := names;
      DroppedNone(refs, reported, d);
      assert names - todo == {};
      while todo != {}
        invariant todo <= names && Valid()
        invariant DroppedIn(old(refs), refs, d, names - todo)
        invariant OldReportedIn(old(reported), reported, old(refs), d, names - todo)
      {
        var n :| n in todo;
        SiblingKept(old(refs), refs, d, names - todo, n);
        BelowKept(old(refs), refs, d, names - todo, n);
        label Before:
        DropRefTree(d + [n]);
        DroppedStep(old(refs), old@Before(refs), refs, d, names - todo, n);
        OldReportedStep(old(reported), old@Before(reported), reported, old(refs), old@Before(refs), d, names - todo, n);
        assert names - todo + {n} == names - (todo - {n});
        todo := todo - {n};
      }
      assert names - todo == names;
    }

    // Compares the files of one directory by name.
    method CompareFiles(d: Path, was: map<string, Stamp>, files: map<string, File>, stamps: map<string, Stamp>, sweep: Sweep)
        returns (kept: map<string, Stamp>)
      requires Valid() && stamps == map n | n in files :: StampOf(hash, n, files[n], sweep)
      requires forall n :: n in was ==> Sane(n, was[n])
      modifies this`pending, this`reported
      ensures Valid() && kept == stamps
      ensures forall p :: p in reported <==>
        || p in old(reported)
        || (IsChild(d, was.Keys + files.Keys, p) && FileTells(hash, was, files, p[|d|]))
    {
      kept := stamps;
      var todo := files.Keys;
      while todo != {}
        invariant todo <= files.Keys && Valid() && kept == stamps
        invariant forall p :: p in reported <==>
          || p in old(reported)
          || (IsChild(d, files.Keys - todo, p) && FileTells(hash, was, files, p[|d|]))
      {
        var n :| n in todo;
        assert forall p :: IsChild(d, files.Keys - (todo - {n}), p) <==> IsChild(d, files.Keys - todo, p) || p == d + [n];
        todo := todo - {n};
        if n in was {
          ComparedTells(hash, n, was[n], files[n], sweep);
          var (differs, stamp) := Compared(hash, was[n], kept[n], files[n], sweep);
          kept := kept[n := stamp];
          if differs {
            Report(d + [n]);
          }
        } else {
          Report(d + [n]);
        }
      }
      ghost var rep := reported;
      todo := was.Keys;
      while todo != {}
        invariant todo <= was.Keys && Valid() && kept == stamps
        invariant forall p :: p in reported <==> p in rep || IsChild(d, was.Keys - files.Keys - todo, p)
      {
        var n :| n in todo;
        if n !in kept {
          Report(d + [n]);
        }
        assert forall p :: IsChild(d, was.Keys - files.Keys - (todo - {n}), p) <==>
          IsChild(d, was.Keys - files.Keys - todo, p) || (p == d + [n] && n !in files);
        todo := todo - {n};
      }
    }

    method SweepDir(fs: Fs, d: Path, sweep: Sweep)
      requires Valid() && IsTree(fs) && d in refs && Under(TOP, d) && TreeBelow(refs, d)
      requires forall n :: n in refs[d].files ==> Sane(n, refs[d].files[n])
      modifies this`refs, this`pending, this`reported
      ensures Valid() && SweptDir(hash, old(refs), refs, fs, d, sweep)
      ensures DirReported(hash, old(reported), reported, old(refs), fs, d, sweep)
    {
      hide DroppedIn, OldReportedIn, Dropped, OldReported, OldUnder, TreeBelow, AddedIn, NewReportedIn, NewUnder, IsTree;
      if d !in fs {
        DropRefTree(d);
        return;
      }
      if fs[d].mtime == refs[d].mtime && !refs[d].racy && !sweep.full {
        return;
      }
      var listed := Listing(hash, fs, d, sweep);
      var kept := CompareFiles(d, refs[d].files, fs[d].files, listed.files, sweep);
      listed := listed.(files := kept);
      ghost var rep1 := reported;
      var before, after := refs[d].dirs, listed.dirs;
      RelistedTrees(refs, d, listed);
      refs := refs[d := listed];
      DropSubdirs(d, before - after);
      ghost var mid, rep2 := refs, reported;
      AddSubdirs(fs, d, after - before, true, sweep);
      SweptListed(hash, old(refs), mid, refs, fs, d, sweep);
      DirReportedListed(hash, old(reported), rep1, rep2, reported, old(refs), fs, d, sweep);
    }

    // The whole sweep; any order of the directories will do.
    method SweepRefs(fs: Fs, order: seq<Path>, sweep: Sweep)
      requires Valid() && IsTree(fs) && IsState(refs) && SkipKeepsDirs(refs, fs, sweep) && Lists(order, refs.Keys)
      modifies this`refs, this`pending, this`reported
      ensures Valid() && IsState(refs) && SweptAll(hash, old(refs), refs, fs, sweep)
      ensures AllReported(hash, old(refs), fs, sweep, old(reported), reported)
    {
      if refs == map[] {
        AddRefTree(fs, TOP, true, sweep);
        FirstSweep(hash, refs, fs, sweep, old(reported), reported);
        SweptIsState(hash, old(refs), refs, fs, sweep);
        return;
      }
      assert forall p :: p in refs.Keys <==> p in order;
      hide IsState, IsTree, SkipKeepsDirs, MidReport, Midway, SweptDir, DirReported, SweptAll, AllReported, TreeBelow, Lists;
      SweepStarts(hash, refs, fs, sweep, reported);
      ghost var done: set<Path> := {};
      for i := 0 to |order|
        invariant Valid() && (forall p :: p in done <==> p in order[..i])
        invariant Midway(hash, old(refs), refs, fs, done, sweep)
        invariant MidReport(hash, old(refs), refs, fs, done, sweep, old(reported), reported)
      {
        var d := order[i];
        MidwayDir(hash, old(refs), refs, fs, order, i, done, sweep);
        if d in refs {
          ghost var was, rep := refs, reported;
          SweepDir(fs, d, sweep);
          StepMidway(hash, old(refs), was, refs, fs, done, d, sweep);
          StepReport(hash, old(refs), was, refs, fs, done, d, sweep, old(reported), rep, reported);
        } else {
          MidwayAway(hash, old(refs), refs, fs, done, d, sweep, old(reported), reported);
        }
        done := done + {d};
      }
      assert order[..|order|] == order && done == old(refs.Keys);
      SweepEnds(hash, old(refs), refs, fs, sweep, old(reported), reported);
      SweptIsState(hash, old(refs), refs, fs, sweep);
    }
  }
}
