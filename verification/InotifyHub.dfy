/** The bookkeeping of native file events in engine/src/watch/watch_manager.cpp:
    which repositories watch which directory, and what is due to be reported. */
module InotifyHub {
  import opened Wrappers

  // An inotify watch descriptor.
  datatype Wd = Wd(number: nat)

  // One repository's watch on a directory, below its git directory or, when
  // shared, below the common one.
  datatype WatchDir = WatchDir(repoId: string, rel: string, shared: bool)

  datatype Repo = Repo(wds: set<Wd>, generation: nat, pending: set<string>, deadline: Option<int>)

  const DEBOUNCE_MS := 50

  predicate Watches(watchers: seq<WatchDir>, repoId: string) {
    exists e :: e in watchers && e.repoId == repoId
  }

  predicate NoRepeat(watchers: seq<WatchDir>) {
    forall i, j :: 0 <= i < j < |watchers| ==> watchers[i] != watchers[j]
  }

  function Others(watchers: seq<WatchDir>, repoId: string): seq<WatchDir> {
    if watchers == [] then []
    else if watchers[0].repoId == repoId then Others(watchers[1..], repoId)
    else [watchers[0]] + Others(watchers[1..], repoId)
  }

  lemma {:induction false} OthersAre(watchers: seq<WatchDir>, repoId: string)
    ensures forall e :: e in Others(watchers, repoId) <==> e in watchers && e.repoId != repoId
    ensures NoRepeat(watchers) ==> NoRepeat(Others(watchers, repoId))
  {
    if watchers != [] {
      OthersAre(watchers[1..], repoId);
      assert watchers == [watchers[0]] + watchers[1..];
      if NoRepeat(watchers) && watchers[0].repoId != repoId {
        assert forall i :: 0 < i < |watchers| ==> watchers[i] != watchers[0];
        assert watchers[0] !in watchers[1..];
        var rest := Others(watchers[1..], repoId);
        forall i, j | 0 <= i < j < |[watchers[0]] + rest| ensures ([watchers[0]] + rest)[i] != ([watchers[0]] + rest)[j] {
          assert rest[j - 1] in rest;
        }
      }
    }
  }

  lemma {:induction false} OthersAll(watchers: seq<WatchDir>, repoId: string)
    requires !Watches(watchers, repoId)
    ensures Others(watchers, repoId) == watchers
  {
    if watchers != [] {
      assert watchers[0] in watchers;
      OthersAll(watchers[1..], repoId);
    }
  }

  // Every directory watched names its repositories once and they name it;
  // the directories are those the kernel watches or has yet to report gone;
  // and what is pending has a deadline.
  ghost predicate Consistent(repos: map<string, Repo>, dirs: map<Wd, seq<WatchDir>>, live: set<Wd>, stale: set<Wd>) {
    && live !! stale && dirs.Keys == live + stale
    && (forall wd :: wd in dirs ==> dirs[wd] != [] && NoRepeat(dirs[wd]))
    && (forall wd, e :: wd in dirs && e in dirs[wd] ==> e.repoId in repos && wd in repos[e.repoId].wds)
    && (forall r, wd :: r in repos && wd in repos[r].wds ==> wd in dirs && Watches(dirs[wd], r))
    && (forall r :: r in repos ==> (repos[r].pending == {} <==> repos[r].deadline == None))
  }

  function JoinRel(dir: string, name: string): string {
    if dir == "" then name else if name == "" then dir else dir + "/" + name
  }

  function CategoryOf(categorize: (bool, string) -> string, e: WatchDir, name: string, repoId: string): set<string> {
    var category := categorize(e.shared, JoinRel(e.rel, name));
    if e.repoId == repoId && category != "" then {category} else {}
  }

  // The names a path is made of, outermost first.
  function Names(path: string): seq<string> {
    if path == "" then [] else Pieces(path)
  }

  function Pieces(path: string): (names: seq<string>)
    ensures names != []
  {
    if path == "" then [""]
    else
      var rest := Pieces(path[1..]);
      if path[0] == '/' then [""] + rest else [[path[0]] + rest[0]] + rest[1..]
  }

  lemma {:induction false} PiecesMore(dir: string, name: string)
    requires '/' !in name
    ensures Pieces(dir + "/" + name) == Pieces(dir) + [name] && Pieces(name) == [name]
    decreases |dir| + |name|
  {
    if name != "" {
      PiecesMore("", name[1..]);
      assert [name[0]] + name[1..] == name;
    }
    if dir == "" {
      assert dir + "/" + name == "/" + name;
    } else {
      PiecesMore(dir[1..], name);
      assert (dir + "/" + name)[1..] == dir[1..] + "/" + name;
    }
  }

  // The entry of a directory is the path of the directory's names and its
  // own; an event on the directory itself has no name.
  lemma EntryNamed(dir: string, name: string)
    ensures JoinRel(dir, "") == dir
    ensures name != "" && '/' !in name ==> Names(JoinRel(dir, name)) == Names(dir) + [name]
  {
    if '/' !in name { PiecesMore(dir, name); }
  }

  // The categories an event on a file or directory has for one repository.
  function Categories(categorize: (bool, string) -> string, watchers: seq<WatchDir>, name: string, repoId: string): set<string> {
    if watchers == [] then {} else
      Categories(categorize, watchers[..|watchers| - 1], name, repoId) + CategoryOf(categorize, watchers[|watchers| - 1], name, repoId)
  }

  // They are those of the entry's path under each directory the repository
  // watches there, as its own or as one shared.
  lemma {:induction false} CategoriesAre(categorize: (bool, string) -> string, watchers: seq<WatchDir>, name: string, repoId: string,
                                         c: string)
    ensures c in Categories(categorize, watchers, name, repoId) <==>
      c != "" && exists e :: e in watchers && e.repoId == repoId && c == categorize(e.shared, JoinRel(e.rel, name))
  {
    if watchers != [] {
      var init, last := watchers[..|watchers| - 1], watchers[|watchers| - 1];
      assert watchers == init + [last];
      CategoriesAre(categorize, init, name, repoId, c);
      hide JoinRel;
    }
  }

  function WithWatcher(watchers: seq<WatchDir>, entry: WatchDir): seq<WatchDir> {
    if entry in watchers then watchers else watchers + [entry]
  }

  function Watched(dirs: map<Wd, seq<WatchDir>>, entry: WatchDir, obtained: Option<Wd>): map<Wd, seq<WatchDir>> {
    if obtained == None then dirs
    else dirs[obtained.value := WithWatcher(if obtained.value in dirs then dirs[obtained.value] else [], entry)]
  }

  // Each directory found, watched under the descriptor obtained for it.
  function AllWatched(dirs: map<Wd, seq<WatchDir>>, repoId: string, shared: bool, found: seq<(string, Option<Wd>)>): map<Wd, seq<WatchDir>> {
    if found == [] then dirs
    else
      var last := found[|found| - 1];
      Watched(AllWatched(dirs, repoId, shared, found[..|found| - 1]), WatchDir(repoId, last.0, shared), last.1)
  }

  predicate Holds(dirs: map<Wd, seq<WatchDir>>, wd: Wd, e: WatchDir) { wd in dirs && e in dirs[wd] }

  function WithWds(repos: map<string, Repo>, repoId: string, wds: set<Wd>): map<string, Repo>
    requires repoId in repos
  {
    repos[repoId := repos[repoId].(wds := repos[repoId].wds + wds)]
  }

  function Got(obtained: Option<Wd>): set<Wd> {
    if obtained.Some? then {obtained.value} else {}
  }

  lemma NoWds(repos: map<string, Repo>, repoId: string)
    requires repoId in repos
    ensures WithWds(repos, repoId, {}) == repos
  {
    assert repos[repoId].wds + {} == repos[repoId].wds;
  }

  lemma WdsMore(repos: map<string, Repo>, repoId: string, a: set<Wd>, b: set<Wd>)
    requires repoId in repos
    ensures repoId in WithWds(repos, repoId, a)
    ensures WithWds(WithWds(repos, repoId, a), repoId, b) == WithWds(repos, repoId, a + b)
  {
    assert repos[repoId].wds + a + b == repos[repoId].wds + (a + b);
  }

  lemma NewWds(repos: map<string, Repo>, repoId: string, a: set<Wd>, b: set<Wd>)
    ensures var first := repos[repoId := Repo({}, 0, {}, None)];
      repoId in WithWds(first, repoId, a) && WithWds(WithWds(first, repoId, a), repoId, b) == repos[repoId := Repo(a + b, 0, {}, None)]
  {
    assert {} + a + b == a + b;
  }

  // The descriptors given for what was found.
  function Obtained(found: seq<(string, Option<Wd>)>): set<Wd> {
    set p | p in found && p.1.Some? :: p.1.value
  }

  // Watching all that is found adds the entries of what was found, no others.
  lemma {:induction false} AllWatchedAre(dirs: map<Wd, seq<WatchDir>>, repoId: string, shared: bool, found: seq<(string, Option<Wd>)>,
                                         wd: Wd, e: WatchDir)
    ensures Holds(AllWatched(dirs, repoId, shared, found), wd, e)
      <==> Holds(dirs, wd, e) || (e.repoId == repoId && e.shared == shared && (e.rel, Some(wd)) in found)
  {
    if found != [] {
      var front, last := found[..|found| - 1], found[|found| - 1];
      assert found == front + [last];
      AllWatchedAre(dirs, repoId, shared, front, wd, e);
    }
  }

  // What an event makes watched besides, for one watcher and for all.
  function Grown(isRecursive: (bool, string) -> bool, dirs: map<Wd, seq<WatchDir>>, e: WatchDir, name: string, isNewDir: bool,
                 found: seq<(string, Option<Wd>)>): map<Wd, seq<WatchDir>> {
    if isNewDir && isRecursive(e.shared, JoinRel(e.rel, name)) then AllWatched(dirs, e.repoId, e.shared, found) else dirs
  }

  function AllGrown(isRecursive: (bool, string) -> bool, dirs: map<Wd, seq<WatchDir>>, watchers: seq<WatchDir>, name: string, isNewDir: bool,
                    found: WatchDir -> seq<(string, Option<Wd>)>): map<Wd, seq<WatchDir>> {
    if watchers == [] then dirs
    else
      var e := watchers[|watchers| - 1];
      Grown(isRecursive, AllGrown(isRecursive, dirs, watchers[..|watchers| - 1], name, isNewDir, found), e, name, isNewDir, found(e))
  }

  predicate Regrows(isRecursive: (bool, string) -> bool, w: WatchDir, name: string, isNewDir: bool) {
    isNewDir && isRecursive(w.shared, JoinRel(w.rel, name))
  }

  // A new directory adds, for each watcher in whose tree it is, the entries of
  // what was found below it, no others.
  lemma {:induction false} AllGrownAre(isRecursive: (bool, string) -> bool, dirs: map<Wd, seq<WatchDir>>, watchers: seq<WatchDir>,
                                       name: string, isNewDir: bool, found: WatchDir -> seq<(string, Option<Wd>)>, wd: Wd, e: WatchDir)
    ensures Holds(AllGrown(isRecursive, dirs, watchers, name, isNewDir, found), wd, e) <==>
      || Holds(dirs, wd, e)
      || exists w ::
           && w in watchers && Regrows(isRecursive, w, name, isNewDir)
           && e.repoId == w.repoId && e.shared == w.shared && (e.rel, Some(wd)) in found(w)
  {
    if watchers != [] {
      var init, last := watchers[..|watchers| - 1], watchers[|watchers| - 1];
      assert watchers == init + [last];
      AllGrownAre(isRecursive, dirs, init, name, isNewDir, found, wd, e);
      AllWatchedAre(AllGrown(isRecursive, dirs, init, name, isNewDir, found), last.repoId, last.shared, found(last), wd, e);
      hide AllWatched, JoinRel, Holds;
    }
  }

  // The descriptors only this repository watches.
  function Released(dirs: map<Wd, seq<WatchDir>>, repoId: string): set<Wd> {
    set wd | wd in dirs && Others(dirs[wd], repoId) == []
  }

  function ReleasedOf(dirs: map<Wd, seq<WatchDir>>, done: set<Wd>, repoId: string): set<Wd> {
    set wd | wd in dirs && wd in done && Others(dirs[wd], repoId) == []
  }

  // The directories done with are rid of the repository.
  ghost predicate HalfRemoved(was: map<Wd, seq<WatchDir>>, dirs: map<Wd, seq<WatchDir>>, done: set<Wd>, repoId: string) {
    && (forall wd :: wd in dirs <==> wd in was && wd !in ReleasedOf(was, done, repoId))
    && forall wd :: wd in dirs ==> dirs[wd] == if wd in done then Others(was[wd], repoId) else was[wd]
  }

  function Deadline(repo: Repo, pending: set<string>, now: int): Option<int> {
    if repo.deadline.Some? || pending == {} then repo.deadline else Some(now + DEBOUNCE_MS)
  }

  // A repository after some changes: more pending, due from the first on.
  ghost predicate Later(was: Repo, repo: Repo, changes: set<string>, now: int) {
    && repo.pending == was.pending + changes && repo.deadline == Deadline(was, repo.pending, now)
    && repo.generation == was.generation && was.wds <= repo.wds
  }

  lemma LaterTwice(was: Repo, repo: Repo, next: Repo, changes: set<string>, more: set<string>, now: int)
    requires Later(was, repo, changes, now) && Later(repo, next, more, now)
    ensures Later(was, next, changes + more, now)
  {
  }

  // Every repository after an event seen by these watchers.
  ghost predicate LaterAll(categorize: (bool, string) -> string, was: map<string, Repo>, repos: map<string, Repo>,
                           watchers: seq<WatchDir>, name: string, now: int) {
    repos.Keys == was.Keys && forall r :: r in was ==> Later(was[r], repos[r], Categories(categorize, watchers, name, r), now)
  }

  lemma NoneLater(categorize: (bool, string) -> string, repos: map<string, Repo>, watchers: seq<WatchDir>, name: string, now: int)
    requires forall r :: r in repos && repos[r].deadline == None ==> repos[r].pending == {}
    ensures LaterAll(categorize, repos, repos, watchers[..0], name, now)
  {
  }

  lemma LaterMore(categorize: (bool, string) -> string, was: map<string, Repo>, before: map<string, Repo>, repos: map<string, Repo>,
                  watchers: seq<WatchDir>, i: nat, name: string, now: int)
    requires i < |watchers| && LaterAll(categorize, was, before, watchers[..i], name, now)
    requires repos.Keys == before.Keys
    requires forall r :: r in repos ==> Later(before[r], repos[r], CategoryOf(categorize, watchers[i], name, r), now)
    ensures LaterAll(categorize, was, repos, watchers[..i + 1], name, now)
  {
    hide Later;
    assert watchers[..i + 1][..i] == watchers[..i];
    forall r | r in was ensures Later(was[r], repos[r], Categories(categorize, watchers[..i + 1], name, r), now) {
      LaterTwice(was[r], before[r], repos[r], Categories(categorize, watchers[..i], name, r),
                 CategoryOf(categorize, watchers[i], name, r), now);
    }
  }

  lemma LaterIs(categorize: (bool, string) -> string, was: map<string, Repo>, repos: map<string, Repo>, watchers: seq<WatchDir>,
                name: string, now: int)
    requires LaterAll(categorize, was, repos, watchers, name, now)
    requires forall r :: r in was ==> (was[r].pending == {} <==> was[r].deadline == None)
    ensures forall r :: r in repos ==>
      var changes := Categories(categorize, watchers, name, r);
      && r in was && repos[r].pending == was[r].pending + changes
      && repos[r].deadline == (if was[r].deadline.Some? || changes == {} then was[r].deadline else Some(now + 50))
      && repos[r].generation == was[r].generation && was[r].wds <= repos[r].wds
  {
  }

  lemma NoneGrown(isRecursive: (bool, string) -> bool, dirs: map<Wd, seq<WatchDir>>, watchers: seq<WatchDir>, name: string, isNewDir: bool,
                  found: WatchDir -> seq<(string, Option<Wd>)>)
    ensures AllGrown(isRecursive, dirs, watchers[..0], name, isNewDir, found) == dirs
  {
  }

  lemma GrownMore(isRecursive: (bool, string) -> bool, dirs: map<Wd, seq<WatchDir>>, watchers: seq<WatchDir>, i: nat, name: string,
                  isNewDir: bool, found: WatchDir -> seq<(string, Option<Wd>)>)
    requires i < |watchers|
    ensures AllGrown(isRecursive, dirs, watchers[..i + 1], name, isNewDir, found)
      == Grown(isRecursive, AllGrown(isRecursive, dirs, watchers[..i], name, isNewDir, found), watchers[i], name, isNewDir, found(watchers[i]))
  {
    assert watchers[..i + 1][..i] == watchers[..i];
  }

  class InotifyHub {
    const categorize: (bool, string) -> string
    const isRecursive: (bool, string) -> bool
    var repos: map<string, Repo>
    var dirs: map<Wd, seq<WatchDir>>
    // The descriptors the kernel watches, and those whose directory went and
    // whose last event is still to be read.
    ghost var live: set<Wd>
    ghost var stale: set<Wd>

    ghost predicate Valid()
      reads this
    {
      Consistent(repos, dirs, live, stale)
    }

    constructor (categorize: (bool, string) -> string, isRecursive: (bool, string) -> bool)
      ensures Valid() && repos == map[] && dirs == map[] && live == {} && stale == {}
    {
      this.categorize, this.isRecursive := categorize, isRecursive;
      repos, dirs, live, stale := map[], map[], {}, {};
    }

    // The kernel gives one descriptor per directory, none when it refuses.
    method AddDirWatch(repoId: string, rel: string, shared: bool, obtained: Option<Wd>)
      requires Valid() && repoId in repos && (obtained.Some? ==> obtained.value !in stale)
      modifies this`repos, this`dirs, this`live
      ensures Valid() && repos == WithWds(old(repos), repoId, Got(obtained)) && live == old(live) + Got(obtained)
      ensures dirs == Watched(old(dirs), WatchDir(repoId, rel, shared), obtained)
    {
      if obtained.None? {
        NoWds(repos, repoId);
        assert live + {} == live;
        return;
      }
      var wd := obtained.value;
      var watchers := if wd in dirs then dirs[wd] else [];
      var entry := WatchDir(repoId, rel, shared);
      if entry !in watchers {
        watchers := watchers + [entry];
      }
      dirs := dirs[wd := watchers];
      live := live + {wd};
      repos := repos[repoId := repos[repoId].(wds := repos[repoId].wds + {wd})];
      WatchAdded(old(repos), old(dirs), old(live), stale, entry, wd);
    }

    // A directory and those found below it, with the descriptor of each.
    method AddDirs(repoId: string, shared: bool, found: seq<(string, Option<Wd>)>)
      requires Valid() && repoId in repos && forall p :: p in found ==> (p.1.Some? ==> p.1.value !in stale)
      modifies this`repos, this`dirs, this`live
      ensures Valid() && repos == WithWds(old(repos), repoId, Obtained(found)) && old(live) <= live
      ensures dirs == AllWatched(old(dirs), repoId, shared, found)
    {
      hide Consistent, Watched, Obtained, WithWds;
      NoneObtained(repos, repoId, found);
      for i := 0 to |found|
        invariant Valid() && repos == WithWds(old(repos), repoId, Obtained(found[..i])) && old(live) <= live
        invariant dirs == AllWatched(old(dirs), repoId, shared, found[..i])
      {
        assert found[i] in found && found[..i + 1][..i] == found[..i];
        ObtainedMore(found, i);
        WdsMore(old(repos), repoId, Obtained(found[..i]), Got(found[i].1));
        AddDirWatch(repoId, found[i].0, shared, found[i].1);
      }
      assert found[..|found|] == found;
    }

    // Refused, leaving everything as it was, when the kernel gives nothing.
    method Add(repoId: string, own: seq<(string, Option<Wd>)>, common: seq<(string, Option<Wd>)>) returns (watched: bool)
      requires Valid() && forall p :: p in own + common ==> (p.1.Some? ==> p.1.value !in stale)
      modifies this`repos, this`dirs, this`live
      ensures Valid() && watched == (repoId in repos)
      ensures watched <==> repoId in old(repos) || exists p :: p in own + common && p.1.Some?
      ensures repoId in old(repos) || !watched ==> repos == old(repos) && dirs == old(dirs)
      ensures watched && repoId !in old(repos) ==>
        && repos == old(repos)[repoId := Repo(Obtained(own) + Obtained(common), 0, {}, None)]
        && dirs == AllWatched(AllWatched(old(dirs), repoId, false, own), repoId, true, common)
    {
      if repoId in repos {
        return true;
      }
      hide Consistent, AllWatched, Obtained, WithWds;
      NewRepo(repos, dirs, live, stale, repoId);
      repos := repos[repoId := Repo({}, 0, {}, None)];
      FoundApart(own, common, stale);
      AddDirs(repoId, false, own);
      AddDirs(repoId, true, common);
      Given(own, common);
      NewWds(old(repos), repoId, Obtained(own), Obtained(common));
      if repos[repoId].wds == {} {
        NothingGiven(old(dirs), repoId, own, common);
        Unwatched(repos, dirs, live, stale, repoId);
        repos := repos - {repoId};
        assert repos == old(repos);
        return false;
      }
      return true;
    }

    // Drops a repository's watches; a descriptor is let go exactly when no
    // other repository watches its directory.
    method Remove(repoId: string)
      requires Valid()
      modifies this
      ensures Valid() && repos == old(repos) - {repoId}
      ensures dirs.Keys == old(dirs).Keys - Released(old(dirs), repoId)
      ensures forall wd :: wd in dirs ==> dirs[wd] == Others(old(dirs)[wd], repoId)
      ensures live == old(live) - Released(old(dirs), repoId) && stale == old(stale) - Released(old(dirs), repoId)
    {
      if repoId !in repos {
        NotWatching(repos, dirs, live, stale, repoId);
        return;
      }
      hide Consistent, HalfRemoved, ReleasedOf, Released, Others, Watches, NoRepeat;
      NotWatchingElsewhere(repos, dirs, live, stale, repoId);
      NoneRemoved(dirs, repoId);
      var wds := repos[repoId].wds;
      var todo := wds;
      assert wds - todo == {} && live - {} == live && stale - {} == stale;
      while todo != {}
        invariant todo <= wds && repos == old(repos)
        invariant HalfRemoved(old(dirs), dirs, wds - todo, repoId)
        invariant live == old(live) - ReleasedOf(old(dirs), wds - todo, repoId)
        invariant stale == old(stale) - ReleasedOf(old(dirs), wds - todo, repoId)
      {
        var wd :| wd in todo;
        RemovedOne(old(dirs), dirs, wds - todo, wd, repoId);
        assert wds - (todo - {wd}) == wds - todo + {wd};
        todo := todo - {wd};
        if wd in dirs {
          var watchers := Others(dirs[wd], repoId);
          if watchers == [] {
            live, stale := live - {wd}, stale - {wd};
            dirs := dirs - {wd};
          } else {
            dirs := dirs[wd := watchers];
          }
        }
      }
      assert wds - todo == wds;
      AllRemoved(old(repos), old(dirs), dirs, repoId);
      repos := repos - {repoId};
      Dropped(old(repos), old(dirs), old(live), old(stale), dirs, live, stale, repoId);
    }

    // The environment's step: the kernel drops a directory that is gone, and
    // the event that says so is yet to be read. The hub itself never takes it.
    ghost method DirectoryGone(wd: Wd)
      requires Valid() && wd in live
      modifies this`live, this`stale
      ensures Valid() && live == old(live) - {wd} && stale == old(stale) + {wd}
    {
      live, stale := live - {wd}, stale + {wd};
    }

    // The last event of a descriptor.
    method Ignored(wd: Wd)
      requires Valid() && wd !in live
      modifies this`repos, this`dirs, this`stale
      ensures Valid() && dirs == old(dirs) - {wd} && stale == old(stale) - {wd} && repos.Keys == old(repos).Keys
      ensures forall r :: r in repos ==> repos[r] == old(repos)[r].(wds := old(repos)[r].wds - {wd})
    {
      if wd !in dirs {
        assert dirs - {wd} == dirs && stale - {wd} == stale;
        return;
      }
      var watchers := dirs[wd];
      for i := 0 to |watchers|
        invariant repos.Keys == old(repos).Keys && dirs == old(dirs) && stale == old(stale)
        invariant forall r :: r in repos ==>
          repos[r] == if Watches(watchers[..i], r) then old(repos)[r].(wds := old(repos)[r].wds - {wd}) else old(repos)[r]
      {
        var r := watchers[i].repoId;
        WatchesMore(watchers, i);
        if r in repos {
          repos := repos[r := repos[r].(wds := repos[r].wds - {wd})];
        }
      }
      assert watchers[..|watchers|] == watchers;
      dirs := dirs - {wd};
      stale := stale - {wd};
      assert forall r :: r in repos ==> repos[r] == old(repos)[r].(wds := old(repos)[r].wds - {wd});
      Forgotten(old(repos), old(dirs), live, old(stale), repos, wd);
    }

    // An event seen by one of the directory's watchers.
    method HappenedTo(e: WatchDir, name: string, isNewDir: bool, now: int, found: seq<(string, Option<Wd>)>)
      requires Valid() && e.repoId in repos && forall p :: p in found ==> (p.1.Some? ==> p.1.value !in stale)
      modifies this`repos, this`dirs, this`live
      ensures Valid() && repos.Keys == old(repos.Keys) && old(live) <= live
      ensures forall r :: r in repos ==> Later(old(repos)[r], repos[r], CategoryOf(categorize, e, name, r), now)
      ensures dirs == Grown(isRecursive, old(dirs), e, name, isNewDir, found)
    {
      hide Consistent;
      KnownPending(repos, dirs, live, stale);
      var rel := JoinRel(e.rel, name);
      if isNewDir && isRecursive(e.shared, rel) {
        AddDirs(e.repoId, e.shared, found);
      }
      var category := categorize(e.shared, rel);
      if category != "" {
        var repo := repos[e.repoId];
        var deadline := if repo.deadline == None then Some(now + DEBOUNCE_MS) else repo.deadline;
        PendingAdded(repos, dirs, live, stale, e.repoId, category, deadline);
        repos := repos[e.repoId := repo.(pending := repo.pending + {category}, deadline := deadline)];
        assert category in repos[e.repoId].pending;
      }
    }

    // Any other event: each repository watching the directory has the change's
    // category pending, and a new directory of a watched tree is watched too.
    method Happened(wd: Wd, name: string, isNewDir: bool, now: int, found: WatchDir -> seq<(string, Option<Wd>)>)
      requires Valid() && forall e, p :: p in found(e) ==> (p.1.Some? ==> p.1.value !in stale)
      modifies this`repos, this`dirs, this`live
      ensures Valid() && repos.Keys == old(repos.Keys) && old(live) <= live
      ensures forall r :: r in repos ==>
        var changes := if wd in old(dirs) then Categories(categorize, old(dirs)[wd], name, r) else {};
        && repos[r].pending == old(repos)[r].pending + changes
        && repos[r].deadline == (if old(repos)[r].deadline.Some? || changes == {} then old(repos)[r].deadline else Some(now + 50))
        && repos[r].generation == old(repos)[r].generation && old(repos)[r].wds <= repos[r].wds
      ensures dirs == if wd in old(dirs) then AllGrown(isRecursive, old(dirs), old(dirs)[wd], name, isNewDir, found) else old(dirs)
    {
      if wd !in dirs {
        return;
      }
      hide Consistent, LaterAll, Later, Categories, CategoryOf, Deadline, Grown, AllGrown, Watches;
      var watchers := dirs[wd];
      WatchersKnown(repos, dirs, live, stale, wd);
      KnownPending(repos, dirs, live, stale);
      NoneLater(categorize, repos, watchers, name, now);
      NoneGrown(isRecursive, dirs, watchers, name, isNewDir, found);
      for i := 0 to |watchers|
        invariant Valid() && repos.Keys == old(repos.Keys) && old(live) <= live
        invariant LaterAll(categorize, old(repos), repos, watchers[..i], name, now)
        invariant dirs == AllGrown(isRecursive, old(dirs), watchers[..i], name, isNewDir, found)
      {
        var e := watchers[i];
        assert e in watchers;
        ghost var before := repos;
        HappenedTo(e, name, isNewDir, now, found(e));
        LaterMore(categorize, old(repos), before, repos, watchers, i, name, now);
        GrownMore(isRecursive, old(dirs), watchers, i, name, isNewDir, found);
      }
      assert watchers[..|watchers|] == watchers;
      LaterIs(categorize, old(repos), repos, watchers, name, now);
    }

    // What is due is handed out once, under the next generation, and cleared.
    method TakeDue(now: int) returns (due: map<string, (nat, set<string>)>)
      requires Valid()
      modifies this`repos
      ensures Valid() && repos.Keys == old(repos).Keys
      ensures forall r :: r in due <==> r in old(repos) && old(repos)[r].deadline.Some? && old(repos)[r].deadline.value <= now
      ensures forall r :: r in due ==>
        && due[r] == (old(repos)[r].generation + 1, old(repos)[r].pending) && due[r].1 != {}
        && repos[r] == Repo(old(repos)[r].wds, old(repos)[r].generation + 1, {}, None)
      ensures forall r :: r in repos && r !in due ==> repos[r] == old(repos)[r]
    {
      due := map[];
      var todo := repos.Keys;
      while todo != {}
        invariant todo <= old(repos).Keys && repos.Keys == old(repos).Keys
        invariant forall r :: r in due <==>
          r in old(repos) && r !in todo && old(repos)[r].deadline.Some? && old(repos)[r].deadline.value <= now
        invariant forall r :: r in due ==>
          && due[r] == (old(repos)[r].generation + 1, old(repos)[r].pending)
          && repos[r] == Repo(old(repos)[r].wds, old(repos)[r].generation + 1, {}, None)
        invariant forall r :: r in repos && r !in due ==> repos[r] == old(repos)[r]
      {
        var r :| r in todo;
        todo := todo - {r};
        var state := repos[r];
        if state.deadline.Some? && now >= state.deadline.value {
          due := due[r := (state.generation + 1, state.pending)];
          repos := repos[r := Repo(state.wds, state.generation + 1, {}, None)];
        }
      }
    }
  }

  lemma WatchAdded(repos: map<string, Repo>, dirs: map<Wd, seq<WatchDir>>, live: set<Wd>, stale: set<Wd>, entry: WatchDir, wd: Wd)
    requires Consistent(repos, dirs, live, stale) && entry.repoId in repos && wd !in stale
    ensures var watchers := WithWatcher(if wd in dirs then dirs[wd] else [], entry);
      Consistent(repos[entry.repoId := repos[entry.repoId].(wds := repos[entry.repoId].wds + {wd})], dirs[wd := watchers],
                 live + {wd}, stale)
  {
    var before := if wd in dirs then dirs[wd] else [];
    var watchers := WithWatcher(before, entry);
    assert entry in watchers && forall e :: e in watchers <==> e == entry || e in before;
    var next, nextRepos := dirs[wd := watchers], repos[entry.repoId := repos[entry.repoId].(wds := repos[entry.repoId].wds + {wd})];
    forall r, d | r in nextRepos && d in nextRepos[r].wds ensures d in next && Watches(next[d], r) {
      if d == wd {
        if r == entry.repoId { assert entry in next[d]; } else { assert Watches(dirs[wd], r); }
      } else {
        assert d in repos[r].wds;
      }
    }
  }

  lemma NewRepo(repos: map<string, Repo>, dirs: map<Wd, seq<WatchDir>>, live: set<Wd>, stale: set<Wd>, repoId: string)
    requires Consistent(repos, dirs, live, stale) && repoId !in repos
    ensures Consistent(repos[repoId := Repo({}, 0, {}, None)], dirs, live, stale)
  {
  }

  lemma Unwatched(repos: map<string, Repo>, dirs: map<Wd, seq<WatchDir>>, live: set<Wd>, stale: set<Wd>, repoId: string)
    requires Consistent(repos, dirs, live, stale) && repoId in repos && repos[repoId].wds == {}
    ensures Consistent(repos - {repoId}, dirs, live, stale)
  {
  }

  lemma {:induction false} NoneWatched(dirs: map<Wd, seq<WatchDir>>, repoId: string, shared: bool, found: seq<(string, Option<Wd>)>)
    requires forall p :: p in found ==> p.1.None?
    ensures AllWatched(dirs, repoId, shared, found) == dirs
  {
    if found != [] {
      assert forall p :: p in found[..|found| - 1] ==> p in found;
      assert found[|found| - 1] in found;
      NoneWatched(dirs, repoId, shared, found[..|found| - 1]);
    }
  }

  lemma Given(own: seq<(string, Option<Wd>)>, common: seq<(string, Option<Wd>)>)
    ensures Obtained(own) + Obtained(common) != {} <==> exists p :: p in own + common && p.1.Some?
  {
    var wds := Obtained(own) + Obtained(common);
    if p :| p in own + common && p.1.Some? {
      assert p.1.value in wds;
    }
    if wd :| wd in wds {
      var p :| (p in own || p in common) && p.1 == Some(wd);
      assert p in own + common;
    }
  }

  lemma NothingGiven(dirs: map<Wd, seq<WatchDir>>, repoId: string, own: seq<(string, Option<Wd>)>, common: seq<(string, Option<Wd>)>)
    requires Obtained(own) + Obtained(common) == {}
    ensures AllWatched(AllWatched(dirs, repoId, false, own), repoId, true, common) == dirs
  {
    NotObtained(own);
    NotObtained(common);
    NoneWatched(dirs, repoId, false, own);
    NoneWatched(dirs, repoId, true, common);
    hide AllWatched;
  }

  lemma NotObtained(found: seq<(string, Option<Wd>)>)
    requires Obtained(found) == {}
    ensures forall p :: p in found ==> p.1.None?
  {
    forall p | p in found ensures p.1.None? {
      if p.1.Some? { ObtainedIn(found, p); }
    }
  }

  lemma ObtainedIn(found: seq<(string, Option<Wd>)>, p: (string, Option<Wd>))
    requires p in found && p.1.Some?
    ensures p.1.value in Obtained(found)
  {
    var wds := Obtained(found);
    assert p in found && p.1.Some?;
    assert p.1.value in wds;
  }

  lemma NoneObtained(repos: map<string, Repo>, repoId: string, found: seq<(string, Option<Wd>)>)
    requires repoId in repos
    ensures WithWds(repos, repoId, Obtained(found[..0])) == repos
  {
    assert Obtained(found[..0]) == {};
    NoWds(repos, repoId);
  }

  lemma ObtainedMore(found: seq<(string, Option<Wd>)>, i: nat)
    requires i < |found|
    ensures Obtained(found[..i + 1]) == Obtained(found[..i]) + Got(found[i].1)
  {
    assert found[..i + 1] == found[..i] + [found[i]];
  }

  lemma FoundApart(own: seq<(string, Option<Wd>)>, common: seq<(string, Option<Wd>)>, stale: set<Wd>)
    requires forall p :: p in own + common ==> (p.1.Some? ==> p.1.value !in stale)
    ensures forall p :: p in own ==> (p.1.Some? ==> p.1.value !in stale)
    ensures forall p :: p in common ==> (p.1.Some? ==> p.1.value !in stale)
  {
    assert forall p :: p in own || p in common ==> p in own + common;
  }

  lemma PendingAdded(repos: map<string, Repo>, dirs: map<Wd, seq<WatchDir>>, live: set<Wd>, stale: set<Wd>, repoId: string,
                     category: string, deadline: Option<int>)
    requires Consistent(repos, dirs, live, stale) && repoId in repos && deadline.Some?
    ensures Consistent(repos[repoId := repos[repoId].(pending := repos[repoId].pending + {category}, deadline := deadline)],
                       dirs, live, stale)
  {
    assert category in repos[repoId].pending + {category};
  }

  lemma NoneRemoved(dirs: map<Wd, seq<WatchDir>>, repoId: string)
    ensures HalfRemoved(dirs, dirs, {}, repoId) && ReleasedOf(dirs, {}, repoId) == {}
  {
  }

  lemma RemovedOne(was: map<Wd, seq<WatchDir>>, dirs: map<Wd, seq<WatchDir>>, done: set<Wd>, wd: Wd, repoId: string)
    requires HalfRemoved(was, dirs, done, repoId) && wd !in done
    ensures ReleasedOf(was, done + {wd}, repoId)
      == ReleasedOf(was, done, repoId) + if wd in dirs && Others(dirs[wd], repoId) == [] then {wd} else {}
    ensures wd in dirs && Others(dirs[wd], repoId) == [] ==> HalfRemoved(was, dirs - {wd}, done + {wd}, repoId)
    ensures wd in dirs && Others(dirs[wd], repoId) != [] ==>
      HalfRemoved(was, dirs[wd := Others(dirs[wd], repoId)], done + {wd}, repoId)
    ensures wd !in dirs ==> HalfRemoved(was, dirs, done + {wd}, repoId)
  {
    hide Others;
  }

  lemma AllRemoved(repos: map<string, Repo>, was: map<Wd, seq<WatchDir>>, dirs: map<Wd, seq<WatchDir>>, repoId: string)
    requires repoId in repos && HalfRemoved(was, dirs, repos[repoId].wds, repoId)
    requires forall wd :: wd in was && wd !in repos[repoId].wds ==> Others(was[wd], repoId) == was[wd] != []
    ensures ReleasedOf(was, repos[repoId].wds, repoId) == Released(was, repoId)
    ensures dirs.Keys == was.Keys - Released(was, repoId)
    ensures forall wd :: wd in dirs ==> dirs[wd] == Others(was[wd], repoId)
  {
    hide Others;
  }

  lemma KnownPending(repos: map<string, Repo>, dirs: map<Wd, seq<WatchDir>>, live: set<Wd>, stale: set<Wd>)
    requires Consistent(repos, dirs, live, stale)
    ensures forall r :: r in repos ==> (repos[r].pending == {} <==> repos[r].deadline == None)
  {
  }

  lemma WatchersKnown(repos: map<string, Repo>, dirs: map<Wd, seq<WatchDir>>, live: set<Wd>, stale: set<Wd>, wd: Wd)
    requires Consistent(repos, dirs, live, stale) && wd in dirs
    ensures forall e :: e in dirs[wd] ==> e.repoId in repos
    ensures forall r :: r in repos && repos[r].deadline == None ==> repos[r].pending == {}
  {
  }

  lemma WatchesMore(watchers: seq<WatchDir>, i: nat)
    requires i < |watchers|
    ensures forall r :: Watches(watchers[..i + 1], r) <==> Watches(watchers[..i], r) || r == watchers[i].repoId
  {
    assert watchers[..i + 1] == watchers[..i] + [watchers[i]];
    forall r | Watches(watchers[..i], r) || r == watchers[i].repoId ensures Watches(watchers[..i + 1], r) {
      if r == watchers[i].repoId {
        assert watchers[i] in watchers[..i + 1];
      } else {
        var e :| e in watchers[..i] && e.repoId == r;
        assert e in watchers[..i + 1];
      }
    }
  }

  lemma NotWatching(repos: map<string, Repo>, dirs: map<Wd, seq<WatchDir>>, live: set<Wd>, stale: set<Wd>, repoId: string)
    requires Consistent(repos, dirs, live, stale) && repoId !in repos
    ensures repos - {repoId} == repos && Released(dirs, repoId) == {}
    ensures forall wd :: wd in dirs ==> Others(dirs[wd], repoId) == dirs[wd]
  {
    assert repos - {repoId} == repos;
    forall wd | wd in dirs ensures Others(dirs[wd], repoId) == dirs[wd] {
      OthersAll(dirs[wd], repoId);
    }
  }

  lemma NotWatchingElsewhere(repos: map<string, Repo>, dirs: map<Wd, seq<WatchDir>>, live: set<Wd>, stale: set<Wd>, repoId: string)
    requires Consistent(repos, dirs, live, stale) && repoId in repos
    ensures forall wd :: wd in dirs && wd !in repos[repoId].wds ==> Others(dirs[wd], repoId) == dirs[wd] != []
  {
    forall wd | wd in dirs && wd !in repos[repoId].wds ensures Others(dirs[wd], repoId) == dirs[wd] != [] {
      OthersAll(dirs[wd], repoId);
    }
  }

  lemma Dropped(repos: map<string, Repo>, dirs: map<Wd, seq<WatchDir>>, live: set<Wd>, stale: set<Wd>,
                nextDirs: map<Wd, seq<WatchDir>>, nextLive: set<Wd>, nextStale: set<Wd>, repoId: string)
    requires Consistent(repos, dirs, live, stale)
    requires nextDirs.Keys == dirs.Keys - Released(dirs, repoId)
    requires forall wd :: wd in nextDirs ==> nextDirs[wd] == Others(dirs[wd], repoId)
    requires nextLive == live - Released(dirs, repoId) && nextStale == stale - Released(dirs, repoId)
    ensures Consistent(repos - {repoId}, nextDirs, nextLive, nextStale)
  {
    forall wd | wd in dirs
      ensures (forall e :: e in Others(dirs[wd], repoId) <==> e in dirs[wd] && e.repoId != repoId)
      ensures NoRepeat(Others(dirs[wd], repoId))
    {
      OthersAre(dirs[wd], repoId);
    }
    forall r, wd | r in repos - {repoId} && wd in repos[r].wds ensures wd in nextDirs && Watches(nextDirs[wd], r) {
      assert Watches(dirs[wd], r);
      var e :| e in dirs[wd] && e.repoId == r;
      assert e in Others(dirs[wd], repoId);
    }
  }

  lemma Forgotten(repos: map<string, Repo>, dirs: map<Wd, seq<WatchDir>>, live: set<Wd>, stale: set<Wd>,
                  next: map<string, Repo>, wd: Wd)
    requires Consistent(repos, dirs, live, stale) && wd !in live && next.Keys == repos.Keys
    requires forall r :: r in repos ==> next[r] == repos[r].(wds := repos[r].wds - {wd})
    ensures Consistent(next, dirs - {wd}, live, stale - {wd})
  {
    forall r, d | r in next && d in next[r].wds ensures d in dirs - {wd} && Watches((dirs - {wd})[d], r) {
      assert d in repos[r].wds && Watches(dirs[d], r);
    }
  }
}
