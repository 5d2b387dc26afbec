/** Runs of the ref watcher of engine/src/watch/watch_manager.cpp: files and
    directories of refs/ change under a clock whose mtimes may be a tick old,
    and sweeps, incremental or full, fall anywhere between the changes. */
module RefHistory {
  import opened RefSweep
  import opened Wrappers

  // fs: the tree. refs: the swept state. seen: each directory as it was when
  // last listed. rewritten: files written in place since then. now: the time
  // of the last event.
  datatype World = World(fs: Fs, refs: Refs, seen: map<Path, Dir>, rewritten: set<Path>, now: int)

  // The mtime an event leaves may lag the event by less than a tick.
  datatype Event =
    | Install(dir: Path, name: string, file: File, at: int, stamp: int)   // a file renamed into place
    | Remove(dir: Path, name: string, at: int, stamp: int)
    | MakeDir(dir: Path, at: int, stamp: int)
    | RemoveDir(dir: Path, at: int, stamp: int)
    | Rewrite(dir: Path, name: string, content: string, at: int, stamp: int)  // written in place
    | Look(full: bool, at: int)

  datatype Clock = Clock(tick: nat, racyWindow: nat)

  predicate Enabled(clock: Clock, w: World, e: Event) {
    && e.at >= w.now
    && (!e.Look? ==> e.at - clock.tick < e.stamp <= e.at)
    && match e
       case Install(d, n, f, t, s) => d in w.fs && d + [n] !in w.fs
       case Remove(d, n, t, s) => d in w.fs && n in w.fs[d].files
       case MakeDir(p, t, s) =>
         p !in w.fs && (p == TOP || (|p| > 1 && Parent(p) in w.fs && Last(p) !in w.fs[Parent(p)].files))
       case RemoveDir(p, t, s) => p in w.fs && p != [] && w.fs[p].files == map[] && Subdirs(w.fs, p) == {}
       case Rewrite(d, n, c, t, s) => d in w.fs && n in w.fs[d].files
       case Look(full, t) => true
  }

  function Stamped(fs: Fs, d: Path, stamp: int): Fs {
    if d in fs then fs[d := fs[d].(mtime := stamp)] else fs
  }

  function Files(fs: Fs, e: Event): Fs
    requires !e.Look?
    requires e.dir in fs || e.MakeDir?
    requires e.Remove? || e.Rewrite? ==> e.name in fs[e.dir].files
    requires e.MakeDir? || e.RemoveDir? ==> e.dir != []
  {
    match e
    case Install(d, n, f, t, s) => fs[d := Dir(s, fs[d].files[n := f])]
    case Remove(d, n, t, s) => fs[d := Dir(s, fs[d].files - {n})]
    case MakeDir(p, t, s) => Stamped(fs, Parent(p), s)[p := Dir(s, map[])]
    case RemoveDir(p, t, s) => Stamped(fs - {p}, Parent(p), s)
    case Rewrite(d, n, c, t, s) => fs[d := fs[d].(files := fs[d].files[n := File(s, c)])]
  }

  function SweepOf(clock: Clock, e: Event): Sweep
    requires e.Look?
  {
    Sweep(e.full, e.at - clock.racyWindow)
  }

  function SweptRefs(hash: string -> nat, refs: Refs, fs: Fs, sweep: Sweep): Refs {
    map p | p in fs :: After(hash, refs, fs, p, sweep)
  }

  // The state SweepRefs leaves is this one.
  lemma SweptUnique(hash: string -> nat, start: Refs, refs: Refs, fs: Fs, sweep: Sweep)
    ensures SweptAll(hash, start, refs, fs, sweep) <==> refs == SweptRefs(hash, start, fs, sweep)
  {
  }

  function SeenAfter(w: World, sweep: Sweep): map<Path, Dir> {
    map p | p in w.fs :: if Skipped(w.refs, w.fs, p, sweep) && p in w.seen then w.seen[p] else w.fs[p]
  }

  function StillRewritten(w: World, sweep: Sweep): set<Path> {
    set p | p in w.rewritten && |p| > 1 && Skipped(w.refs, w.fs, Parent(p), sweep)
  }

  function Do(hash: string -> nat, clock: Clock, w: World, e: Event): World
    requires Enabled(clock, w, e)
  {
    if e.Look? then
      var sweep := SweepOf(clock, e);
      World(w.fs, SweptRefs(hash, w.refs, w.fs, sweep), SeenAfter(w, sweep), StillRewritten(w, sweep), e.at)
    else
      World(Files(w.fs, e), w.refs, w.seen, if e.Rewrite? then w.rewritten + {e.dir + [e.name]} else w.rewritten, e.at)
  }

  // ----- what holds between events ------------------------------------------

  // The stamps of a directory are of the files it held when last listed.
  ghost predicate Recorded(hash: string -> nat, dir: RefDir, seen: Dir) {
    && dir.mtime == seen.mtime && dir.files.Keys == seen.files.Keys
    && forall n :: n in dir.files ==>
         && dir.files[n].mtime == seen.files[n].mtime && dir.files[n].size == |seen.files[n].content|
         && (dir.files[n].content.Some? ==> dir.files[n].content.value == ContentHash(hash, seen.files[n]))
  }

  // What is not racy is older than the racy window.
  ghost predicate Old(dir: RefDir, limit: int) {
    && (!dir.racy ==> dir.mtime < limit)
    && forall n :: n in dir.files && dir.files[n].content.None? && Hashable(n, dir.files[n].size) ==> dir.files[n].mtime < limit
  }

  // A directory that was not racy and still has its mtime is as it was, but
  // for files rewritten in place.
  ghost predicate Unmoved(w: World, d: Path)
    requires d in w.refs && d in w.seen && d in w.fs
  {
    !w.refs[d].racy && w.refs[d].mtime == w.fs[d].mtime ==>
      && w.refs[d].dirs == Subdirs(w.fs, d) && w.fs[d].files.Keys == w.seen[d].files.Keys
      && forall n :: n in w.fs[d].files && d + [n] !in w.rewritten ==> w.fs[d].files[n] == w.seen[d].files[n]
  }

  ghost predicate Sound(hash: string -> nat, clock: Clock, w: World) {
    && IsTree(w.fs) && IsState(w.refs) && w.refs.Keys == w.seen.Keys
    && (forall d :: d in w.refs ==> Recorded(hash, w.refs[d], w.seen[d]) && Old(w.refs[d], w.now - clock.racyWindow))
    && (forall d :: d in w.refs && d in w.fs ==> Unmoved(w, d))
  }

  // ----- events on the tree -------------------------------------------------

  // A directory an event leaves alone, or whose mtime the event moved.
  predicate Alone(fs: Fs, next: Fs, q: Path) {
    q in fs && q in next && next[q] == fs[q] && Subdirs(next, q) == Subdirs(fs, q)
  }

  predicate Moved(clock: Clock, next: Fs, e: Event, q: Path) {
    q in next && next[q].mtime > e.at - clock.tick
  }

  lemma EventDirs(hash: string -> nat, clock: Clock, w: World, e: Event, q: Path)
    requires Sound(hash, clock, w) && Enabled(clock, w, e) && !e.Look? && q in Files(w.fs, e)
    ensures (e.Rewrite? && q == e.dir) || Alone(w.fs, Files(w.fs, e), q) || Moved(clock, Files(w.fs, e), e, q)
  {
    var next := Files(w.fs, e);
    if !Moved(clock, next, e, q) {
      forall n ensures n in Subdirs(next, q) <==> n in Subdirs(w.fs, q) {
        SubdirsAre(w.fs, q, n);
        SubdirsAre(next, q, n);
        assert Parent(q + [n]) == q;
      }
    }
  }

  lemma EventTree(clock: Clock, w: World, e: Event)
    requires IsTree(w.fs) && Enabled(clock, w, e) && !e.Look?
    ensures IsTree(Files(w.fs, e))
  {
    forall p | p in Files(w.fs, e)
      ensures Under(TOP, p) && (p != TOP ==> |p| > 1 && Parent(p) in Files(w.fs, e) && Last(p) !in Files(w.fs, e)[Parent(p)].files)
    {
      EventTreeAt(clock, w, e, p);
    }
  }

  lemma EventTreeAt(clock: Clock, w: World, e: Event, p: Path)
    requires IsTree(w.fs) && Enabled(clock, w, e) && !e.Look? && p in Files(w.fs, e)
    ensures Under(TOP, p) && (p != TOP ==> |p| > 1 && Parent(p) in Files(w.fs, e) && Last(p) !in Files(w.fs, e)[Parent(p)].files)
  {
    if e.MakeDir? && p == e.dir {
      if p != TOP {
        assert Under(TOP, Parent(p)) && Parent(p)[..1] == p[..1];
      }
    } else {
      TreeAt(w.fs, p);
      OldDirStays(clock, w, e, p);
    }
  }

  lemma TreeAt(fs: Fs, p: Path)
    requires IsTree(fs) && p in fs
    ensures Under(TOP, p) && (p != TOP ==> |p| > 1 && Parent(p) in fs && Last(p) !in fs[Parent(p)].files)
  {
  }

  lemma OldDirStays(clock: Clock, w: World, e: Event, p: Path)
    requires Enabled(clock, w, e) && !e.Look? && p in Files(w.fs, e) && p in w.fs && Under(TOP, p)
    requires p != TOP ==> |p| > 1 && Parent(p) in w.fs && Last(p) !in w.fs[Parent(p)].files
    ensures p != TOP ==> Parent(p) in Files(w.fs, e) && Last(p) !in Files(w.fs, e)[Parent(p)].files
  {
    if p != TOP {
      assert Parent(p) + [Last(p)] == p;
      if e.RemoveDir? { SubdirsAre(w.fs, Parent(p), Last(p)); }
    }
  }

  // An mtime an event has just left is none that was not racy.
  lemma MovedUnmoved(clock: Clock, w: World, v: World, e: Event, d: Path)
    requires clock.tick <= clock.racyWindow && e.at >= w.now && v.refs == w.refs && d in v.refs && d in v.seen && d in v.fs
    requires Old(w.refs[d], w.now - clock.racyWindow) && Moved(clock, v.fs, e, d)
    ensures Unmoved(v, d)
  {
  }

  lemma AloneUnmoved(w: World, v: World, d: Path)
    requires v.refs == w.refs && v.seen == w.seen && w.rewritten <= v.rewritten && d in w.refs && d in w.seen && d in w.fs
    requires Alone(w.fs, v.fs, d) && Unmoved(w, d)
    ensures Unmoved(v, d)
  {
    hide Subdirs;
  }

  lemma RewrittenUnmoved(hash: string -> nat, clock: Clock, w: World, e: Event)
    requires Enabled(clock, w, e) && e.Rewrite? && e.dir in w.refs && e.dir in w.seen && e.dir in w.fs && Unmoved(w, e.dir)
    ensures Unmoved(Do(hash, clock, w, e), e.dir)
  {
    assert Subdirs(Files(w.fs, e), e.dir) == Subdirs(w.fs, e.dir);
    hide Subdirs;
  }

  lemma EventUnmoved(hash: string -> nat, clock: Clock, w: World, e: Event, d: Path)
    requires clock.tick <= clock.racyWindow
    requires Sound(hash, clock, w) && Enabled(clock, w, e) && !e.Look? && d in w.refs && d in Files(w.fs, e)
    ensures Unmoved(Do(hash, clock, w, e), d)
  {
    EventDirs(hash, clock, w, e, d);
    assert Old(w.refs[d], w.now - clock.racyWindow);
    if d in w.fs { assert Unmoved(w, d); }
    hide Sound, Subdirs, Unmoved, Files, Old;
    var v := Do(hash, clock, w, e);
    if Moved(clock, v.fs, e, d) {
      MovedUnmoved(clock, w, v, e, d);
    } else if Alone(w.fs, v.fs, d) {
      AloneUnmoved(w, v, d);
    } else {
      RewrittenUnmoved(hash, clock, w, e);
    }
  }

  lemma EventSound(hash: string -> nat, clock: Clock, w: World, e: Event)
    requires clock.tick <= clock.racyWindow
    requires Sound(hash, clock, w) && Enabled(clock, w, e) && !e.Look?
    ensures Sound(hash, clock, Do(hash, clock, w, e))
  {
    EventTree(clock, w, e);
    var v := Do(hash, clock, w, e);
    forall d | d in v.refs && d in v.fs ensures Unmoved(v, d) {
      EventUnmoved(hash, clock, w, e, d);
    }
    hide IsTree, IsState, Unmoved, Files, Recorded;
  }

  // ----- sweeps -------------------------------------------------------------

  lemma SkipKeeps(hash: string -> nat, clock: Clock, w: World, sweep: Sweep)
    requires Sound(hash, clock, w)
    ensures SkipKeepsDirs(w.refs, w.fs, sweep)
  {
    forall d | Skipped(w.refs, w.fs, d, sweep) ensures w.refs[d].dirs == Subdirs(w.fs, d) {
      assert Unmoved(w, d);
    }
  }

  lemma LookSound(hash: string -> nat, clock: Clock, w: World, e: Event)
    requires Sound(hash, clock, w) && Enabled(clock, w, e) && e.Look?
    ensures Sound(hash, clock, Do(hash, clock, w, e))
  {
    var v, sweep := Do(hash, clock, w, e), SweepOf(clock, e);
    SkipKeeps(hash, clock, w, sweep);
    SweptUnique(hash, w.refs, v.refs, w.fs, sweep);
    SweptIsState(hash, w.refs, v.refs, w.fs, sweep);
    hide IsState, IsTree, SkipKeepsDirs, SweptAll;
    forall d | d in v.refs
      ensures Recorded(hash, v.refs[d], v.seen[d]) && Old(v.refs[d], v.now - clock.racyWindow) && Unmoved(v, d)
    {
      LookSoundAt(hash, clock, w, e, d);
    }
  }

  lemma LookSoundAt(hash: string -> nat, clock: Clock, w: World, e: Event, d: Path)
    requires Sound(hash, clock, w) && Enabled(clock, w, e) && e.Look? && d in w.fs
    ensures var v := Do(hash, clock, w, e);
      && d in v.refs && d in v.seen
      && Recorded(hash, v.refs[d], v.seen[d]) && Old(v.refs[d], v.now - clock.racyWindow) && Unmoved(v, d)
  {
    assert Under(TOP, d);
    if Skipped(w.refs, w.fs, d, SweepOf(clock, e)) {
      SkippedSound(hash, clock, w, e, d);
    } else {
      ListedSound(hash, clock, w, e, d);
    }
  }

  lemma ListedSound(hash: string -> nat, clock: Clock, w: World, e: Event, d: Path)
    requires Enabled(clock, w, e) && e.Look? && d in w.fs && !Skipped(w.refs, w.fs, d, SweepOf(clock, e))
    ensures var v := Do(hash, clock, w, e);
      && d in v.refs && d in v.seen
      && Recorded(hash, v.refs[d], v.seen[d]) && Old(v.refs[d], v.now - clock.racyWindow) && Unmoved(v, d)
  {
    hide Skipped, Subdirs;
  }

  lemma SkippedSound(hash: string -> nat, clock: Clock, w: World, e: Event, d: Path)
    requires Sound(hash, clock, w) && Enabled(clock, w, e) && e.Look? && d != [] && Skipped(w.refs, w.fs, d, SweepOf(clock, e))
    ensures var v := Do(hash, clock, w, e);
      && d in v.refs && d in v.seen
      && Recorded(hash, v.refs[d], v.seen[d]) && Old(v.refs[d], v.now - clock.racyWindow) && Unmoved(v, d)
  {
    assert Unmoved(w, d) && Recorded(hash, w.refs[d], w.seen[d]) && Old(w.refs[d], w.now - clock.racyWindow);
    hide Sound, Subdirs;
    var v := Do(hash, clock, w, e);
    forall n | n in w.fs[d].files && d + [n] !in v.rewritten ensures w.fs[d].files[n] == w.seen[d].files[n] {
      assert Parent(d + [n]) == d;
    }
  }

  // ----- runs ---------------------------------------------------------------

  ghost predicate IsRun(hash: string -> nat, clock: Clock, trace: seq<World>, events: seq<Event>) {
    && |trace| == |events| + 1 && clock.tick <= clock.racyWindow
    && IsTree(trace[0].fs) && trace[0].refs == map[] && trace[0].seen == map[] && trace[0].rewritten == {}
    && forall i :: 0 <= i < |events| ==> Enabled(clock, trace[i], events[i]) && trace[i + 1] == Do(hash, clock, trace[i], events[i])
  }

  lemma {:induction false} SoundRun(hash: string -> nat, clock: Clock, trace: seq<World>, events: seq<Event>, i: nat)
    requires IsRun(hash, clock, trace, events) && i <= |events|
    ensures Sound(hash, clock, trace[i])
  {
    if i > 0 {
      SoundRun(hash, clock, trace, events, i - 1);
      if events[i - 1].Look? {
        LookSound(hash, clock, trace[i - 1], events[i - 1]);
      } else {
        EventSound(hash, clock, trace[i - 1], events[i - 1]);
      }
    }
  }

  // Two accounts of a directory agree on its mtime, its subdirectories, its
  // files' names and, but for the files excepted, their mtimes and sizes.
  ghost predicate Agree(a: RefDir, b: RefDir, excepted: set<string>) {
    && a.mtime == b.mtime && a.dirs == b.dirs && a.files.Keys == b.files.Keys
    && forall n :: n in a.files && n !in excepted ==> a.files[n].mtime == b.files[n].mtime && a.files[n].size == b.files[n].size
  }

  function RewrittenIn(w: World, d: Path): set<string> {
    set p | p in w.rewritten && |p| == |d| + 1 && Under(d, p) :: p[|d|]
  }

  // After any sweep of any run the state is what a fresh listing of the whole
  // tree would give, except for files rewritten in place since a full sweep.
  lemma SweepAgrees(hash: string -> nat, clock: Clock, trace: seq<World>, events: seq<Event>, i: nat)
    requires IsRun(hash, clock, trace, events) && i < |events| && events[i].Look?
    ensures var w, v, sweep := trace[i], trace[i + 1], SweepOf(clock, events[i]);
      && v.refs.Keys == w.fs.Keys
      && (events[i].full || w.rewritten == {} ==> v.rewritten == {})
      && forall d :: d in w.fs ==> Agree(v.refs[d], Listing(hash, w.fs, d, sweep), RewrittenIn(v, d))
  {
    var w, v, sweep := trace[i], trace[i + 1], SweepOf(clock, events[i]);
    SoundRun(hash, clock, trace, events, i);
    forall d | d in w.fs ensures Agree(v.refs[d], Listing(hash, w.fs, d, sweep), RewrittenIn(v, d)) {
      AgreesAt(hash, clock, w, events[i], d);
    }
  }

  lemma AgreesAt(hash: string -> nat, clock: Clock, w: World, e: Event, d: Path)
    requires Sound(hash, clock, w) && Enabled(clock, w, e) && e.Look? && d in w.fs
    ensures var v := Do(hash, clock, w, e);
      d in v.refs && Agree(v.refs[d], Listing(hash, w.fs, d, SweepOf(clock, e)), RewrittenIn(v, d))
  {
    var v, sweep := Do(hash, clock, w, e), SweepOf(clock, e);
    if Skipped(w.refs, w.fs, d, sweep) {
      assert Unmoved(w, d);
      forall n | n in w.fs[d].files && n !in RewrittenIn(v, d) ensures d + [n] !in w.rewritten {
        assert Parent(d + [n]) == d && (d + [n])[|d|] == n;
        assert d + [n] in w.rewritten ==> d + [n] in v.rewritten;
      }
    }
  }

  // ----- what is reported ---------------------------------------------------

  ghost predicate Injective(hash: string -> nat) {
    forall a, b :: |a| <= MAX_HASHED_SIZE && |b| <= MAX_HASHED_SIZE && hash(a) == hash(b) ==> a == b
  }

  // The file was written within the racy window of being renamed into place.
  predicate Prompt(clock: Clock, e: Event) {
    e.Install? ==> e.file.mtime > e.at - clock.racyWindow
  }

  // A file whose stamp has no hash shows any change by its mtime.
  ghost predicate Telling(w: World, d: Path, n: string)
    requires d in w.refs && d in w.seen && d in w.fs && n in w.refs[d].files && n in w.seen[d].files && n in w.fs[d].files
  {
    || w.fs[d].files[n] == w.seen[d].files[n]
    || w.refs[d].files[n].content.Some? || !Hashable(n, w.refs[d].files[n].size)
    || w.fs[d].files[n].mtime != w.refs[d].files[n].mtime
  }

  ghost predicate Timely(hash: string -> nat, clock: Clock, w: World) {
    && Sound(hash, clock, w)
    && forall d, n :: d in w.refs && d in w.fs && n in w.refs[d].files && n in w.fs[d].files ==> Telling(w, d, n)
  }

  lemma EventTimely(hash: string -> nat, clock: Clock, w: World, e: Event)
    requires clock.tick <= clock.racyWindow && Timely(hash, clock, w) && Enabled(clock, w, e) && Prompt(clock, e)
    ensures Timely(hash, clock, Do(hash, clock, w, e))
  {
    if e.Look? { LookSound(hash, clock, w, e); } else { EventSound(hash, clock, w, e); }
    var v := Do(hash, clock, w, e);
    forall d, n | d in v.refs && d in v.fs && n in v.refs[d].files && n in v.fs[d].files ensures Telling(v, d, n) {
      hide IsState, IsTree, Unmoved;
      TellingKept(hash, clock, w, e, d, n);
    }
  }

  lemma TellingKept(hash: string -> nat, clock: Clock, w: World, e: Event, d: Path, n: string)
    requires clock.tick <= clock.racyWindow && Timely(hash, clock, w) && Enabled(clock, w, e) && Prompt(clock, e)
    requires Sound(hash, clock, Do(hash, clock, w, e))
    requires var v := Do(hash, clock, w, e); d in v.refs && d in v.fs && n in v.refs[d].files && n in v.fs[d].files
    ensures Telling(Do(hash, clock, w, e), d, n)
  {
    hide IsState, IsTree, Unmoved;
    if e.Look? {
      assert Skipped(w.refs, w.fs, d, SweepOf(clock, e)) ==> Telling(w, d, n);
    } else {
      assert Old(w.refs[d], w.now - clock.racyWindow);
      if d in w.fs && n in w.fs[d].files {
        assert Telling(w, d, n);
      }
    }
  }

  lemma {:induction false} TimelyRun(hash: string -> nat, clock: Clock, trace: seq<World>, events: seq<Event>, i: nat)
    requires IsRun(hash, clock, trace, events) && i <= |events| && forall k :: 0 <= k < i ==> Prompt(clock, events[k])
    ensures Timely(hash, clock, trace[i])
  {
    if i == 0 {
      SoundRun(hash, clock, trace, events, 0);
    } else {
      TimelyRun(hash, clock, trace, events, i - 1);
      EventTimely(hash, clock, trace[i - 1], events[i - 1]);
    }
  }

  // What really happened to a path since it was last seen: a directory came
  // or went, a file came or went, or it is not the file it was. Of a file too
  // large or named so that it is never hashed, only mtime and size count.
  predicate Happened(seen: map<Path, Dir>, fs: Fs, p: Path) {
    (p in seen) != (p in fs) || FileHappened(seen, fs, p)
  }

  predicate FileHappened(seen: map<Path, Dir>, fs: Fs, p: Path) {
    || HasFile(seen, p) != HasFile(fs, p)
    || (HasFile(seen, p) && DifferentFile(Last(p), seen[Parent(p)].files[Last(p)], fs[Parent(p)].files[Last(p)]))
  }

  predicate DifferentFile(name: string, a: File, b: File) {
    if Hashable(name, |a.content|) then a != b else a.mtime != b.mtime || |a.content| != |b.content|
  }

  // The new file has the mtime and size of the one last seen, which was
  // stamped too long after its mtime to be hashed.
  predicate Unhashed(name: string, before: Stamp, was: File, file: File) {
    && Hashable(name, |was.content|) && before.content.None?
    && was.mtime == file.mtime && |was.content| == |file.content|
  }

  // What comparing the path's file with its stamp cannot tell.
  predicate Missable(w: World, p: Path) {
    && HasFile(w.seen, p) && HadFile(w.refs, p) && HasFile(w.fs, p)
    && Unhashed(Last(p), w.refs[Parent(p)].files[Last(p)], w.seen[Parent(p)].files[Last(p)], w.fs[Parent(p)].files[Last(p)])
  }

  // A sweep does not look at the directory of a file rewritten in place.
  predicate Unlooked(w: World, sweep: Sweep, p: Path) {
    p in w.rewritten && p != [] && Skipped(w.refs, w.fs, Parent(p), sweep)
  }

  lemma DiffersExactly(hash: string -> nat, clock: Clock, w: World, d: Path, n: string)
    requires Sound(hash, clock, w) && Injective(hash)
    requires d in w.refs && d in w.fs && n in w.refs[d].files && n in w.fs[d].files
    ensures n in w.seen[d].files
    ensures var before, was, file := w.refs[d].files[n], w.seen[d].files[n], w.fs[d].files[n];
      Differs(hash, before, file) <==> DifferentFile(n, was, file) && !Unhashed(n, before, was, file)
  {
    assert Recorded(hash, w.refs[d], w.seen[d]) && Sane(n, w.refs[d].files[n]);
  }

  // In every run a sweep reports exactly what happened since the sweep before
  // it, but for replacements its stamps cannot tell and files rewritten in
  // place where it does not look.
  lemma ReportsWhatHappened(hash: string -> nat, clock: Clock, trace: seq<World>, events: seq<Event>, i: nat, p: Path)
    requires IsRun(hash, clock, trace, events) && i < |events| && events[i].Look? && Injective(hash)
    ensures var w, sweep := trace[i], SweepOf(clock, events[i]);
      Reportable(hash, w.refs, w.fs, sweep, p) <==>
        || (p in w.seen) != (p in w.fs)
        || (FileHappened(w.seen, w.fs, p) && !Missable(w, p) && !Unlooked(w, sweep, p))
  {
    SoundRun(hash, clock, trace, events, i);
    hide Sound, Reportable, FileHappened, Injective, Missable, Unlooked;
    ReportedNow(hash, clock, trace[i], SweepOf(clock, events[i]), p);
  }

  lemma ReportedNow(hash: string -> nat, clock: Clock, w: World, sweep: Sweep, p: Path)
    requires Sound(hash, clock, w) && Injective(hash)
    ensures Reportable(hash, w.refs, w.fs, sweep, p) <==>
        || (p in w.seen) != (p in w.fs)
        || (FileHappened(w.seen, w.fs, p) && !Missable(w, p) && !Unlooked(w, sweep, p))
  {
    assert w.refs.Keys == w.seen.Keys;
    if |p| > 1 {
      var d, n := Parent(p), Last(p);
      assert p == d + [n];
      if d in w.refs { assert Recorded(hash, w.refs[d], w.seen[d]); }
      if d in w.refs && d in w.fs {
        assert Unmoved(w, d);
        if n in w.refs[d].files && n in w.fs[d].files {
          DiffersExactly(hash, clock, w, d, n);
        }
      }
      if Skipped(w.refs, w.fs, d, sweep) && p !in w.rewritten {
        SkippedSame(w, d, n);
      }
    }
    hide Sound, Injective, Unhashed, DifferentFile, Differs;
    ReportedFrom(hash, w, sweep, p);
  }

  lemma SkippedSame(w: World, d: Path, n: string)
    requires d in w.refs && d in w.seen && d in w.fs && Unmoved(w, d) && !w.refs[d].racy && w.refs[d].mtime == w.fs[d].mtime
    requires d + [n] !in w.rewritten
    ensures !FileHappened(w.seen, w.fs, d + [n])
  {
    assert Parent(d + [n]) == d && Last(d + [n]) == n;
  }

  lemma ReportedFrom(hash: string -> nat, w: World, sweep: Sweep, p: Path)
    requires w.refs.Keys == w.seen.Keys
    requires |p| > 1 && Parent(p) in w.refs ==> w.refs[Parent(p)].files.Keys == w.seen[Parent(p)].files.Keys
    requires |p| > 1 && Skipped(w.refs, w.fs, Parent(p), sweep) && p !in w.rewritten ==> !FileHappened(w.seen, w.fs, p)
    requires HadFile(w.refs, p) && HasFile(w.fs, p) ==>
      var before, was, file := w.refs[Parent(p)].files[Last(p)], w.seen[Parent(p)].files[Last(p)], w.fs[Parent(p)].files[Last(p)];
      Differs(hash, before, file) <==> DifferentFile(Last(p), was, file) && !Unhashed(Last(p), before, was, file)
    ensures Reportable(hash, w.refs, w.fs, sweep, p) <==>
        || (p in w.seen) != (p in w.fs)
        || (FileHappened(w.seen, w.fs, p) && !Missable(w, p) && !Unlooked(w, sweep, p))
  {
    hide Unhashed, DifferentFile, Differs, Skipped;
  }

  // So what happened goes unreported exactly so.
  lemma MissedExactly(hash: string -> nat, clock: Clock, trace: seq<World>, events: seq<Event>, i: nat, p: Path)
    requires IsRun(hash, clock, trace, events) && i < |events| && events[i].Look? && Injective(hash)
    ensures var w, sweep := trace[i], SweepOf(clock, events[i]);
      Happened(w.seen, w.fs, p) && !Reportable(hash, w.refs, w.fs, sweep, p) <==>
        && ((p in w.seen) == (p in w.fs)) && FileHappened(w.seen, w.fs, p)
        && (Missable(w, p) || Unlooked(w, sweep, p))
  {
    ReportsWhatHappened(hash, clock, trace, events, i, p);
    hide IsRun, Injective, Reportable, FileHappened, Missable, Unlooked;
  }

  // When files are renamed into place within the racy window of being written,
  // no stamp misses a replacement: all that happened is reported, short of
  // files rewritten in place where the sweep did not look; a full sweep
  // reports those too.
  lemma PromptReports(hash: string -> nat, clock: Clock, trace: seq<World>, events: seq<Event>, i: nat, p: Path)
    requires IsRun(hash, clock, trace, events) && i < |events| && events[i].Look? && Injective(hash)
    requires forall k :: 0 <= k < i ==> Prompt(clock, events[k])
    ensures var w, sweep := trace[i], SweepOf(clock, events[i]);
      && (Reportable(hash, w.refs, w.fs, sweep, p) <==>
            (p in w.seen) != (p in w.fs) || (FileHappened(w.seen, w.fs, p) && !Unlooked(w, sweep, p)))
      && (events[i].full || w.rewritten == {} ==>
            (Reportable(hash, w.refs, w.fs, sweep, p) <==> Happened(w.seen, w.fs, p)))
  {
    ReportsWhatHappened(hash, clock, trace, events, i, p);
    TimelyRun(hash, clock, trace, events, i);
    TimelyTells(hash, clock, trace[i], p);
    hide IsRun, Injective, Reportable, FileHappened, Missable, Timely;
  }

  lemma TimelyTells(hash: string -> nat, clock: Clock, w: World, p: Path)
    requires Timely(hash, clock, w)
    ensures !(FileHappened(w.seen, w.fs, p) && Missable(w, p))
  {
    if Missable(w, p) {
      var d, n := Parent(p), Last(p);
      assert Recorded(hash, w.refs[d], w.seen[d]) && Telling(w, d, n);
      hide Timely;
    }
  }

  // No path was last seen both as a file and as a directory.
  ghost predicate SeenApart(seen: map<Path, Dir>) {
    forall d, n :: d in seen && n in seen[d].files ==> d + [n] !in seen
  }

  lemma LookApart(hash: string -> nat, clock: Clock, w: World, e: Event)
    requires Sound(hash, clock, w) && Enabled(clock, w, e) && e.Look?
    ensures SeenApart(Do(hash, clock, w, e).seen)
  {
    var v := Do(hash, clock, w, e);
    forall d, n | d in v.seen && n in v.seen[d].files ensures d + [n] !in v.seen {
      assert d in w.fs && Parent(d + [n]) == d && Last(d + [n]) == n;
      if Skipped(w.refs, w.fs, d, SweepOf(clock, e)) {
        assert Unmoved(w, d);
      }
    }
  }

  lemma ApartStep(hash: string -> nat, clock: Clock, w: World, e: Event)
    requires Sound(hash, clock, w) && Enabled(clock, w, e) && SeenApart(w.seen)
    ensures SeenApart(Do(hash, clock, w, e).seen)
  {
    hide Sound, SeenApart;
    if e.Look? { LookApart(hash, clock, w, e); }
  }

  lemma NextWorld(hash: string -> nat, clock: Clock, trace: seq<World>, events: seq<Event>, i: nat)
    requires IsRun(hash, clock, trace, events) && i < |events|
    ensures |trace| == |events| + 1 && Enabled(clock, trace[i], events[i]) && trace[i + 1] == Do(hash, clock, trace[i], events[i])
  {
    hide Do, Enabled;
  }

  lemma NoneSeen(hash: string -> nat, clock: Clock, trace: seq<World>, events: seq<Event>)
    requires IsRun(hash, clock, trace, events)
    ensures SeenApart(trace[0].seen)
  {
    hide Do, Enabled, IsTree;
  }

  lemma {:induction false} ApartRun(hash: string -> nat, clock: Clock, trace: seq<World>, events: seq<Event>, i: nat)
    requires IsRun(hash, clock, trace, events) && i <= |events|
    ensures SeenApart(trace[i].seen)
    decreases i
  {
    hide *;
    if i == 0 {
      NoneSeen(hash, clock, trace, events);
    } else {
      ApartRun(hash, clock, trace, events, i - 1);
      SoundRun(hash, clock, trace, events, i - 1);
      NextWorld(hash, clock, trace, events, i - 1);
      ApartStep(hash, clock, trace[i - 1], events[i - 1]);
    }
  }

  // Where the sweep lists nothing again, a file can only have been rewritten
  // in place.
  predicate LookedAt(w: World, full: bool, p: Path)
    requires p != []
  {
    || full || p !in w.rewritten || Parent(p) !in w.refs || Parent(p) !in w.fs
    || w.refs[Parent(p)].racy || w.refs[Parent(p)].mtime != w.fs[Parent(p)].mtime
  }

  // So with prompt files every replacement of a file of at most 4096 bytes is
  // reported, even one of equal size within a tick of the clock; of the index,
  // of packed-refs and of larger files exactly those that move mtime or size.
  lemma ReplacementsReported(hash: string -> nat, clock: Clock, trace: seq<World>, events: seq<Event>, i: nat, p: Path)
    requires IsRun(hash, clock, trace, events) && i < |events| && events[i].Look?
    requires forall a, b :: |a| <= 4096 && |b| <= 4096 && hash(a) == hash(b) ==> a == b
    requires forall k :: 0 <= k < i ==> Prompt(clock, events[k])
    requires HasFile(trace[i].seen, p) && HasFile(trace[i].fs, p)
    ensures var w, sweep := trace[i], SweepOf(clock, events[i]);
      var was, file := w.seen[Parent(p)].files[Last(p)], w.fs[Parent(p)].files[Last(p)];
      var small := |was.content| <= 4096 && |file.content| <= 4096 && Last(p) != "index" && Last(p) != "packed-refs";
      Reportable(hash, w.refs, w.fs, sweep, p) <==>
        && LookedAt(w, events[i].full, p)
        && (if small then was != file else was.mtime != file.mtime || |was.content| != |file.content|)
  {
    var w := trace[i];
    SoundRun(hash, clock, trace, events, i);
    ApartRun(hash, clock, trace, events, i);
    PromptReports(hash, clock, trace, events, i, p);
    assert IsTree(w.fs);
    FilesApart(w.seen, w.fs, p);
    SmallFiles(w.seen, w.fs, p);
    hide IsRun, Sound, Reportable, FileHappened, Happened, Injective, SeenApart, HasFile;
  }

  lemma FilesApart(seen: map<Path, Dir>, fs: Fs, p: Path)
    requires IsTree(fs) && SeenApart(seen) && HasFile(seen, p) && HasFile(fs, p)
    ensures p !in seen && p !in fs
  {
    NotADirectory(fs, p);
    hide IsTree;
    assert Parent(p) + [Last(p)] == p;
  }

  lemma NotADirectory(fs: Fs, p: Path)
    requires IsTree(fs) && HasFile(fs, p)
    ensures p !in fs
  {
    assert Under(TOP, Parent(p));
  }

  lemma SmallFiles(seen: map<Path, Dir>, fs: Fs, p: Path)
    requires HasFile(seen, p) && HasFile(fs, p)
    ensures var was, file := seen[Parent(p)].files[Last(p)], fs[Parent(p)].files[Last(p)];
      var small := |was.content| <= 4096 && |file.content| <= 4096 && Last(p) != "index" && Last(p) != "packed-refs";
      FileHappened(seen, fs, p) <==>
        if small then was != file else was.mtime != file.mtime || |was.content| != |file.content|
  {
  }

  // Such a run: a ref is replaced by an old file of its size.
  const COARSE := Clock(10, 100)
  const ONE_REF: Fs := map[TOP := Dir(0, map["main" := File(0, "a")])]
  const MAIN: Path := TOP + ["main"]
  const REPLACE := [Look(false, 1000), Install(TOP, "main", File(0, "b"), 1000, 1000), Look(false, 1001)]

  function Replacing(step: nat): World
    requires step < 3
  {
    if step == 0 then World(ONE_REF, map[], map[], {}, 0)
    else
      World(if step == 1 then ONE_REF else map[TOP := Dir(1000, map["main" := File(0, "b")])],
            map[TOP := RefDir(0, false, map["main" := Stamp(0, 1, None)], {})], ONE_REF, {}, 1000)
  }

  lemma ReplacingLook(hash: string -> nat)
    ensures Do(hash, COARSE, Replacing(0), REPLACE[0]) == Replacing(1)
  {
    assert Subdirs(ONE_REF, TOP) == {};
    assert Listing(hash, ONE_REF, TOP, Sweep(false, 900)) == Replacing(1).refs[TOP];
    assert SweptRefs(hash, map[], ONE_REF, Sweep(false, 900)) == Replacing(1).refs;
    assert SeenAfter(Replacing(0), Sweep(false, 900)) == ONE_REF;
    assert StillRewritten(Replacing(0), Sweep(false, 900)) == {};
  }

  lemma ReplacingInstall(hash: string -> nat)
    ensures Enabled(COARSE, Replacing(1), REPLACE[1])
    ensures Do(hash, COARSE, Replacing(1), REPLACE[1]) == Replacing(2)
  {
    assert MAIN !in ONE_REF;
    var files := map["main" := File(0, "a")];
    assert files["main" := File(0, "b")] == map["main" := File(0, "b")];
    assert ONE_REF[TOP := Dir(1000, map["main" := File(0, "b")])] == Replacing(2).fs;
  }

  lemma ReplacingMissed(hash: string -> nat)
    ensures Enabled(COARSE, Replacing(0), REPLACE[0]) && Enabled(COARSE, Replacing(2), REPLACE[2])
    ensures Happened(Replacing(2).seen, Replacing(2).fs, MAIN)
    ensures !Reportable(hash, Replacing(2).refs, Replacing(2).fs, SweepOf(COARSE, REPLACE[2]), MAIN)
    ensures Missable(Replacing(2), MAIN)
  {
    assert Parent(MAIN) == TOP && Last(MAIN) == "main";
    var was := Replacing(2).refs[TOP].files["main"];
    assert was == Stamp(0, 1, None) && Replacing(2).fs[TOP].files["main"] == File(0, "b");
  }

  lemma RunOfThree(hash: string -> nat, clock: Clock, w: seq<World>, e: seq<Event>)
    requires |w| == 4 && |e| == 3 && clock.tick <= clock.racyWindow
    requires IsTree(w[0].fs) && w[0].refs == map[] && w[0].seen == map[] && w[0].rewritten == {}
    requires Enabled(clock, w[0], e[0]) && w[1] == Do(hash, clock, w[0], e[0])
    requires Enabled(clock, w[1], e[1]) && w[2] == Do(hash, clock, w[1], e[1])
    requires Enabled(clock, w[2], e[2]) && w[3] == Do(hash, clock, w[2], e[2])
    ensures IsRun(hash, clock, w, e)
  {
    hide Do, Enabled, IsTree;
    forall i | 0 <= i < 3 ensures Enabled(clock, w[i], e[i]) && w[i + 1] == Do(hash, clock, w[i], e[i]) {
      if i == 0 {} else if i == 1 {} else { assert i == 2; }
    }
  }

  lemma OldFileMissed(hash: string -> nat) returns (trace: seq<World>)
    ensures IsRun(hash, COARSE, trace, REPLACE) && trace[2].rewritten == {}
    ensures Happened(trace[2].seen, trace[2].fs, MAIN)
    ensures !Reportable(hash, trace[2].refs, trace[2].fs, SweepOf(COARSE, REPLACE[2]), MAIN)
    ensures Missable(trace[2], MAIN)
  {
    assert Replacing(0).refs == map[] && Replacing(0).seen == map[] && Replacing(0).rewritten == {};
    assert IsTree(Replacing(0).fs);
    assert Replacing(2).rewritten == {};
    hide Replacing, Do, Enabled, Happened, Reportable, IsTree, Missable;
    ReplacingMissed(hash);
    ReplacingLook(hash);
    ReplacingInstall(hash);
    trace := [Replacing(0), Replacing(1), Replacing(2), Do(hash, COARSE, Replacing(2), REPLACE[2])];
    hide IsRun;
    RunOfThree(hash, COARSE, trace, REPLACE);
  }
}
