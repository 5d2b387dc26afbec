/** The rebase todo rewriter of engine/src/exec/sequence_editor.cpp: git's todo
    is read, matched against the plan and written back in the plan's order. */
module TodoRewrite {
  import opened Texts
  import opened TodoText
  import opened Wrappers

  // ----- reading the todo ---------------------------------------------------

  // A commit line, and the refs named by the update-ref lines up to the next.
  datatype TodoCommit = TodoCommit(sha: string, rest: string, refs: seq<string>)

  // leading: update-ref lines ahead of every commit.
  datatype Todo = Todo(leading: seq<string>, commits: seq<TodoCommit>)

  function Add(todo: Todo, item: Item): Todo {
    match item
    case Commit(sha, rest) => todo.(commits := todo.commits + [TodoCommit(sha, rest, [])])
    case Ref(name) =>
      if todo.commits == [] then todo.(leading := todo.leading + [name])
      else
        var last := |todo.commits| - 1;
        todo.(commits := todo.commits[last := todo.commits[last].(refs := todo.commits[last].refs + [name])])
  }

  function Gather(items: seq<Item>): Todo {
    if items == [] then Todo([], []) else Add(Gather(items[..|items| - 1]), items[|items| - 1])
  }

  function RefItems(refs: seq<string>): seq<Item> {
    seq(|refs|, i requires 0 <= i < |refs| => Ref(refs[i]))
  }

  // The todo's lines in their order, from the last commit back.
  function FlattenCommits(commits: seq<TodoCommit>): seq<Item> {
    if commits == [] then [] else
      var last := commits[|commits| - 1];
      FlattenCommits(commits[..|commits| - 1]) + [Commit(last.sha, last.rest)] + RefItems(last.refs)
  }

  function Flatten(todo: Todo): seq<Item> {
    RefItems(todo.leading) + FlattenCommits(todo.commits)
  }

  lemma FlattenAdd(todo: Todo, item: Item)
    ensures Flatten(Add(todo, item)) == Flatten(todo) + [item]
  {
    var next := Add(todo, item);
    match item {
      case Commit(sha, rest) =>
        assert next.commits[..|todo.commits|] == todo.commits;
        assert RefItems([]) == [];
      case Ref(name) =>
        if todo.commits == [] {
          assert RefItems(todo.leading + [name]) == RefItems(todo.leading) + [item];
        } else {
          var last := |todo.commits| - 1;
          var refs := todo.commits[last].refs;
          assert next.commits[..last] == todo.commits[..last];
          assert RefItems(refs + [name]) == RefItems(refs) + [item];
        }
    }
  }

  // Nothing of the todo is lost or moved by reading it.
  lemma {:induction false} FlattenGather(items: seq<Item>)
    ensures Flatten(Gather(items)) == items
  {
    if items == [] {
      assert RefItems([]) == [];
    } else {
      FlattenGather(items[..|items| - 1]);
      FlattenAdd(Gather(items[..|items| - 1]), items[|items| - 1]);
      assert items[..|items| - 1] + [items[|items| - 1]] == items;
    }
  }

  // The items read so far and those still to come.
  function ReadFrom(items: seq<Item>, lines: seq<string>, commentChar: string): Result<seq<Item>, ReadError> {
    match ReadItems(lines, commentChar)
    case Err(e) => Err(e)
    case Ok(rest) => Ok(items + rest)
  }

  lemma ReadOn(items: seq<Item>, lines: seq<string>, i: nat, commentChar: string)
    requires i < |lines|
    ensures ReadFrom(items, lines[i..], commentChar) ==
      match ParseLine(lines[i], commentChar)
      case Unreadable => Err(UnreadableLine(lines[i]))
      case Unsupported => Err(UnsupportedLine(lines[i]))
      case Nothing => ReadFrom(items, lines[i + 1..], commentChar)
      case Found(item) => ReadFrom(items + [item], lines[i + 1..], commentChar)
  {
    hide ParseLine;
    assert lines[i..][0] == lines[i] && lines[i..][1..] == lines[i + 1..];
    var rest := ReadItems(lines[i + 1..], commentChar);
    if rest.Ok? && ParseLine(lines[i], commentChar).Found? {
      var item := ParseLine(lines[i], commentChar).item;
      assert items + ([item] + rest.value) == items + [item] + rest.value;
    }
  }

  method ReadTodo(text: string, commentChar: string) returns (r: Result<Todo, ReadError>)
    ensures match ReadItems(Lines(text), commentChar)
            case Err(e) => r == Err(e)
            case Ok(items) => r == Ok(Gather(items))
  {
    var lines := Lines(text);
    var todo := Todo([], []);
    ghost var items := [];
    assert lines[0..] == lines;
    assert ReadItems(lines, commentChar).Ok? ==> [] + ReadItems(lines, commentChar).value == ReadItems(lines, commentChar).value;
    for i := 0 to |lines|
      invariant todo == Gather(items)
      invariant ReadItems(lines, commentChar) == ReadFrom(items, lines[i..], commentChar)
    {
      hide ReadFrom, ReadItems, ParseLine, Add;
      ReadOn(items, lines, i, commentChar);
      match ParseLine(lines[i], commentChar) {
        case Unreadable => return Err(UnreadableLine(lines[i]));
        case Unsupported => return Err(UnsupportedLine(lines[i]));
        case Nothing =>
        case Found(item) =>
          todo := Add(todo, item);
          assert (items + [item])[..|items|] == items;
          items := items + [item];
      }
    }
    assert lines[|lines|..] == [];
    assert items + [] == items;
    return Ok(todo);
  }

  // ----- matching the plan --------------------------------------------------

  datatype Entry = Malformed | Entry(action: string, sha: string, summary: string, message: string)

  datatype PlanStep = PlanStep(action: string, todo: nat)

  datatype PlanError =
    | MalformedEntry
    | InvalidEntry
    | NotReplayed(sha: string, summary: string)
    | ListedTwice(sha: string, summary: string)
    | NotListed(sha: string, rest: string)

  predicate ShaMatches(a: string, b: string) {
    a != "" && b != "" && (a <= b || b <= a)
  }

  predicate FirstMatch(commits: seq<TodoCommit>, sha: string, i: nat) {
    && i < |commits| && ShaMatches(commits[i].sha, sha)
    && forall j :: 0 <= j < i ==> !ShaMatches(commits[j].sha, sha)
  }

  predicate ValidEntry(entry: Entry) {
    entry.Entry? && KnownAction(entry.action) && entry.sha != ""
  }

  predicate MatchedSoFar(plan: seq<Entry>, commits: seq<TodoCommit>, steps: seq<PlanStep>) {
    && |steps| <= |plan|
    && (forall k :: 0 <= k < |steps| ==>
          ValidEntry(plan[k]) && steps[k].action == plan[k].action && FirstMatch(commits, plan[k].sha, steps[k].todo))
    && forall j, k :: 0 <= j < k < |steps| ==> steps[j].todo != steps[k].todo
  }

  predicate Planned(steps: seq<PlanStep>, i: nat) {
    exists k :: 0 <= k < |steps| && steps[k].todo == i
  }

  // The plan's entries name the todo's commits one to one.
  predicate Matched(plan: seq<Entry>, commits: seq<TodoCommit>, steps: seq<PlanStep>) {
    && |steps| == |plan| && MatchedSoFar(plan, commits, steps)
    && forall i :: 0 <= i < |commits| ==> Planned(steps, i)
  }

  // What each refusal says of the plan.
  ghost predicate Refuses(plan: seq<Entry>, commits: seq<TodoCommit>, error: PlanError) {
    match error
    case MalformedEntry => Malformed in plan
    case InvalidEntry => exists e :: e in plan && e.Entry? && !ValidEntry(e)
    case NotReplayed(sha, summary) =>
      && (exists e :: e in plan && ValidEntry(e) && e.sha == sha && e.summary == summary)
      && forall i :: 0 <= i < |commits| ==> !ShaMatches(commits[i].sha, sha)
    case ListedTwice(sha, summary) =>
      exists j, k, i :: 0 <= j < k < |plan| && ValidEntry(plan[j]) && ValidEntry(plan[k]) && plan[k].sha == sha
        && plan[k].summary == summary && Names(commits, plan[j], i) && Names(commits, plan[k], i)
    case NotListed(sha, rest) =>
      exists i :: 0 <= i < |commits| && commits[i].sha == sha && commits[i].rest == rest
        && !Listed(plan, commits, i)
  }

  predicate Names(commits: seq<TodoCommit>, entry: Entry, i: nat) {
    entry.Entry? && FirstMatch(commits, entry.sha, i)
  }

  predicate Listed(plan: seq<Entry>, commits: seq<TodoCommit>, i: nat) {
    exists e :: e in plan && Names(commits, e, i)
  }

  lemma MatchedNames(plan: seq<Entry>, commits: seq<TodoCommit>, steps: seq<PlanStep>)
    requires Matched(plan, commits, steps)
    ensures forall e :: e in plan ==> ValidEntry(e) && exists i :: Names(commits, e, i)
    ensures forall j, k, i :: 0 <= j < k < |plan| && Names(commits, plan[j], i) ==> !Names(commits, plan[k], i)
    ensures forall i :: 0 <= i < |commits| ==> Listed(plan, commits, i)
  {
    forall k | 0 <= k < |plan| ensures ValidEntry(plan[k]) && Names(commits, plan[k], steps[k].todo) {
    }
    forall i | 0 <= i < |commits| ensures Listed(plan, commits, i) {
      assert Planned(steps, i);
      var k :| 0 <= k < |steps| && steps[k].todo == i;
      assert plan[k] in plan && Names(commits, plan[k], i);
    }
  }

  // No refused plan could have been matched.
  lemma RefusedRightly(plan: seq<Entry>, commits: seq<TodoCommit>, error: PlanError, steps: seq<PlanStep>)
    requires Refuses(plan, commits, error)
    ensures !Matched(plan, commits, steps)
  {
    if Matched(plan, commits, steps) {
      MatchedNames(plan, commits, steps);
    }
  }

  lemma PlannedMore(steps: seq<PlanStep>, step: PlanStep)
    ensures forall i :: Planned(steps + [step], i) <==> Planned(steps, i) || i == step.todo
  {
    forall i | Planned(steps, i) || i == step.todo ensures Planned(steps + [step], i) {
      if i == step.todo {
        assert (steps + [step])[|steps|].todo == i;
      } else {
        var k :| 0 <= k < |steps| && steps[k].todo == i;
        assert (steps + [step])[k].todo == i;
      }
    }
  }

  lemma MatchedMore(plan: seq<Entry>, commits: seq<TodoCommit>, steps: seq<PlanStep>, i: nat)
    requires |steps| < |plan| && MatchedSoFar(plan, commits, steps) && ValidEntry(plan[|steps|])
    requires FirstMatch(commits, plan[|steps|].sha, i) && !Planned(steps, i)
    ensures MatchedSoFar(plan, commits, steps + [PlanStep(plan[|steps|].action, i)])
  {
  }

  lemma NamedBefore(plan: seq<Entry>, commits: seq<TodoCommit>, steps: seq<PlanStep>, i: nat)
    requires |steps| < |plan| && MatchedSoFar(plan, commits, steps) && ValidEntry(plan[|steps|])
    requires FirstMatch(commits, plan[|steps|].sha, i) && Planned(steps, i)
    ensures Refuses(plan, commits, ListedTwice(plan[|steps|].sha, plan[|steps|].summary))
  {
    var j :| 0 <= j < |steps| && steps[j].todo == i;
    assert Names(commits, plan[j], i) && Names(commits, plan[|steps|], i);
  }

  lemma UnplannedUnlisted(plan: seq<Entry>, commits: seq<TodoCommit>, steps: seq<PlanStep>, i: nat)
    requires |steps| == |plan| && MatchedSoFar(plan, commits, steps) && !Planned(steps, i)
    ensures !Listed(plan, commits, i)
  {
    forall e | e in plan ensures !Names(commits, e, i) {
      var k :| 0 <= k < |plan| && plan[k] == e;
      assert FirstMatch(commits, e.sha, steps[k].todo);
    }
  }

  // ----- the plans accepted -------------------------------------------------

  // The todo abbreviates the entry's sha, or, where that may be, the plan the
  // commit's.
  predicate GoesWith(plan: seq<Entry>, commits: seq<TodoCommit>, either: bool, k: nat, i: nat) {
    && k < |plan| && plan[k].Entry? && i < |commits| && commits[i].sha != "" && plan[k].sha != ""
    && (commits[i].sha <= plan[k].sha || (either && plan[k].sha <= commits[i].sha))
  }

  ghost predicate HasCommit(plan: seq<Entry>, commits: seq<TodoCommit>, either: bool, k: nat) {
    exists i: nat :: GoesWith(plan, commits, either, k, i)
  }

  ghost predicate HasEntry(plan: seq<Entry>, commits: seq<TodoCommit>, either: bool, i: nat) {
    exists k: nat :: GoesWith(plan, commits, either, k, i)
  }

  // Each entry goes with one commit and each commit with one entry.
  ghost predicate OneToOne(plan: seq<Entry>, commits: seq<TodoCommit>, either: bool) {
    && (forall k: nat | k < |plan| :: HasCommit(plan, commits, either, k))
    && (forall i: nat | i < |commits| :: HasEntry(plan, commits, either, i))
    && (forall k: nat, i: nat, j: nat :: GoesWith(plan, commits, either, k, i) && GoesWith(plan, commits, either, k, j) ==> i == j)
    && (forall k: nat, l: nat, i: nat :: GoesWith(plan, commits, either, k, i) && GoesWith(plan, commits, either, l, i) ==> k == l)
  }

  ghost predicate Actionable(plan: seq<Entry>) {
    forall e :: e in plan ==> e.Entry? && e.action in ["pick", "reword", "edit", "squash", "fixup", "drop"]
  }

  // With full shas in the plan nothing else goes with an entry either.
  lemma FullShas(plan: seq<Entry>, commits: seq<TodoCommit>)
    requires OneToOne(plan, commits, false)
    ensures OneToOne(plan, commits, true)
    ensures forall k: nat, i: nat :: GoesWith(plan, commits, true, k, i) ==> GoesWith(plan, commits, false, k, i)
  {
    forall k: nat, i: nat | GoesWith(plan, commits, true, k, i) ensures GoesWith(plan, commits, false, k, i) {
      assert HasCommit(plan, commits, false, k) && HasEntry(plan, commits, false, i);
      var j: nat :| GoesWith(plan, commits, false, k, j);
      var l: nat :| GoesWith(plan, commits, false, l, i);
      if plan[k].sha <= commits[i].sha {
        assert commits[j].sha <= plan[k].sha <= commits[i].sha <= plan[l].sha;
        assert GoesWith(plan, commits, false, l, j);
      }
    }
    FullIsEither(plan, commits);
    hide GoesWith;
    forall k: nat | k < |plan| ensures HasCommit(plan, commits, true, k) {
      assert HasCommit(plan, commits, false, k);
    }
    forall i: nat | i < |commits| ensures HasEntry(plan, commits, true, i) {
      assert HasEntry(plan, commits, false, i);
    }
  }

  lemma FullIsEither(plan: seq<Entry>, commits: seq<TodoCommit>)
    ensures forall k: nat, i: nat :: GoesWith(plan, commits, false, k, i) ==> GoesWith(plan, commits, true, k, i)
  {
  }

  lemma NamesGoWith(plan: seq<Entry>, commits: seq<TodoCommit>, k: nat, i: nat)
    requires OneToOne(plan, commits, true) && k < |plan|
    ensures Names(commits, plan[k], i) <==> GoesWith(plan, commits, true, k, i)
  {
    assert HasCommit(plan, commits, true, k);
    var j: nat :| GoesWith(plan, commits, true, k, j);
    forall l: nat | l < |commits| ensures ShaMatches(commits[l].sha, plan[k].sha) <==> GoesWith(plan, commits, true, k, l) {
    }
    hide GoesWith, ShaMatches;
  }

  lemma EntryValid(plan: seq<Entry>, commits: seq<TodoCommit>, e: Entry)
    requires Actionable(plan) && OneToOne(plan, commits, true) && e in plan
    ensures ValidEntry(e)
  {
    var k: nat :| k < |plan| && plan[k] == e;
    assert HasCommit(plan, commits, true, k);
  }

  lemma EntryReplayed(plan: seq<Entry>, commits: seq<TodoCommit>, e: Entry)
    requires OneToOne(plan, commits, true) && e in plan && e.Entry?
    ensures exists i :: 0 <= i < |commits| && ShaMatches(commits[i].sha, e.sha)
  {
    var k: nat :| k < |plan| && plan[k] == e;
    assert HasCommit(plan, commits, true, k);
    var i: nat :| GoesWith(plan, commits, true, k, i);
    assert ShaMatches(commits[i].sha, e.sha);
  }

  lemma CommitListed(plan: seq<Entry>, commits: seq<TodoCommit>, i: nat)
    requires OneToOne(plan, commits, true) && i < |commits|
    ensures Listed(plan, commits, i)
  {
    assert HasEntry(plan, commits, true, i);
    var k: nat :| GoesWith(plan, commits, true, k, i);
    NamesGoWith(plan, commits, k, i);
    assert plan[k] in plan;
  }

  lemma NotTwice(plan: seq<Entry>, commits: seq<TodoCommit>, j: nat, k: nat, i: nat)
    requires OneToOne(plan, commits, true) && j < k < |plan|
    ensures !Names(commits, plan[j], i) || !Names(commits, plan[k], i)
  {
    NamesGoWith(plan, commits, j, i);
    NamesGoWith(plan, commits, k, i);
    hide Names, GoesWith;
  }

  // Such a plan, of actions the editor knows, is refused for nothing.
  lemma Accepted(plan: seq<Entry>, commits: seq<TodoCommit>, error: PlanError)
    requires Actionable(plan) && OneToOne(plan, commits, true)
    ensures !Refuses(plan, commits, error)
  {
    hide OneToOne, GoesWith, Names;
    if Refuses(plan, commits, error) {
      match error {
        case MalformedEntry =>
        case InvalidEntry =>
          var e :| e in plan && e.Entry? && !ValidEntry(e);
          EntryValid(plan, commits, e);
        case NotReplayed(sha, summary) =>
          var e :| e in plan && ValidEntry(e) && e.sha == sha;
          EntryReplayed(plan, commits, e);
        case ListedTwice(sha, summary) =>
          var j: nat, k: nat, i: nat :| j < k < |plan| && Names(commits, plan[j], i) && Names(commits, plan[k], i);
          NotTwice(plan, commits, j, k, i);
        case NotListed(sha, rest) =>
          var i: nat :| i < |commits| && !Listed(plan, commits, i);
          CommitListed(plan, commits, i);
      }
    }
  }

  // Every step is the entry's own action on a commit that goes with it.
  ghost predicate StepsGoWith(plan: seq<Entry>, commits: seq<TodoCommit>, steps: seq<PlanStep>) {
    && |steps| == |plan|
    && forall k :: 0 <= k < |plan| ==>
        plan[k].Entry? && steps[k].action == plan[k].action && GoesWith(plan, commits, true, k, steps[k].todo)
  }

  lemma MatchedGoWith(plan: seq<Entry>, commits: seq<TodoCommit>, steps: seq<PlanStep>)
    requires Matched(plan, commits, steps)
    ensures StepsGoWith(plan, commits, steps)
  {
    forall k: nat | k < |plan| ensures GoesWith(plan, commits, true, k, steps[k].todo) {
      assert ValidEntry(plan[k]) && FirstMatch(commits, plan[k].sha, steps[k].todo);
    }
  }

  method Match(plan: seq<Entry>, commits: seq<TodoCommit>) returns (r: Result<seq<PlanStep>, PlanError>)
    ensures match r
            case Ok(steps) => Matched(plan, commits, steps) && StepsGoWith(plan, commits, steps)
            case Err(e) => Refuses(plan, commits, e)
    ensures Actionable(plan) && OneToOne(plan, commits, true) ==> r.Ok?
  {
    forall e | Refuses(plan, commits, e) ensures !(Actionable(plan) && OneToOne(plan, commits, true)) {
      if Actionable(plan) && OneToOne(plan, commits, true) {
        Accepted(plan, commits, e);
      }
    }
    hide Actionable, OneToOne;
    var planned := seq(|commits|, i => false);
    var steps: seq<PlanStep> := [];
    for k := 0 to |plan|
      invariant |steps| == k && |planned| == |commits| && MatchedSoFar(plan, commits, steps)
      invariant forall i :: 0 <= i < |commits| ==> (planned[i] <==> Planned(steps, i))
    {
      hide MatchedSoFar, Planned, KnownAction;
      var entry := plan[k];
      assert entry in plan;
      if entry.Malformed? {
        return Err(MalformedEntry);
      }
      if !KnownAction(entry.action) || entry.sha == "" {
        return Err(InvalidEntry);
      }
      var i := 0;
      while i < |commits| && !ShaMatches(commits[i].sha, entry.sha)
        invariant 0 <= i <= |commits|
        invariant forall j :: 0 <= j < i ==> !ShaMatches(commits[j].sha, entry.sha)
      {
        i := i + 1;
      }
      if i == |commits| {
        return Err(NotReplayed(entry.sha, entry.summary));
      }
      assert FirstMatch(commits, entry.sha, i);
      if planned[i] {
        NamedBefore(plan, commits, steps, i);
        return Err(ListedTwice(entry.sha, entry.summary));
      }
      planned := planned[i := true];
      PlannedMore(steps, PlanStep(entry.action, i));
      MatchedMore(plan, commits, steps, i);
      steps := steps + [PlanStep(entry.action, i)];
    }
    for i := 0 to |commits|
      invariant forall j :: 0 <= j < i ==> planned[j]
    {
      if !planned[i] {
        UnplannedUnlisted(plan, commits, steps, i);
        return Err(NotListed(commits[i].sha, commits[i].rest));
      }
    }
    MatchedGoWith(plan, commits, steps);
    return Ok(steps);
  }

  // ----- writing it back ----------------------------------------------------

  predicate IsFold(action: string) {
    action == "squash" || action == "fixup"
  }

  function Flush(refs: seq<string>): seq<Out> {
    seq(|refs|, i requires 0 <= i < |refs| => UpdateRef(refs[i]))
  }

  datatype Walk = Walk(out: seq<Out>, drops: seq<Out>, pending: seq<string>)

  predicate InTodo(todo: Todo, steps: seq<PlanStep>) {
    forall k :: 0 <= k < |steps| ==> steps[k].todo < |todo.commits|
  }

  function Write(todo: Todo, step: PlanStep): Out
    requires step.todo < |todo.commits|
  {
    Step(step.action, todo.commits[step.todo].sha, todo.commits[step.todo].rest)
  }

  function Walked(todo: Todo, steps: seq<PlanStep>): Walk
    requires InTodo(todo, steps)
  {
    if steps == [] then Walk([], [], todo.leading) else
      var w, step := Walked(todo, steps[..|steps| - 1]), steps[|steps| - 1];
      var refs := todo.commits[step.todo].refs;
      if step.action == "drop" then Walk(w.out, w.drops + [Write(todo, step)], w.pending + refs)
      else if IsFold(step.action) then Walk(w.out + [Write(todo, step)], w.drops, w.pending + refs)
      else Walk(w.out + Flush(w.pending) + [Write(todo, step)], w.drops, refs)
  }

  function Rewritten(todo: Todo, steps: seq<PlanStep>): seq<Out>
    requires InTodo(todo, steps)
  {
    var w := Walked(todo, steps);
    w.out + Flush(w.pending) + w.drops
  }

  lemma Joins(a: string, b: string, c: string)
    ensures a + (b + c) == a + b + c
  {
  }

  lemma {:induction false} TextOfBoth(a: seq<Out>, b: seq<Out>)
    ensures WriteText(a + b) == WriteText(a) + WriteText(b)
  {
    hide WriteLine;
    if a == [] {
      assert a + b == b;
    } else {
      TextOfBoth(a[1..], b);
      assert (a + b)[1..] == a[1..] + b && (a + b)[0] == a[0];
      Joins(WriteLine(a[0]) + "\n", WriteText(a[1..]), WriteText(b));
    }
  }

  lemma TextOfOne(out: Out)
    ensures WriteText([out]) == WriteLine(out) + "\n"
  {
    assert WriteText([out]) == WriteLine(out) + "\n" + WriteText([]);
  }

  lemma FlushSplit(refs: seq<string>, i: nat)
    requires i < |refs|
    ensures Flush(refs[..i + 1]) == Flush(refs[..i]) + [UpdateRef(refs[i])]
    ensures WriteLine(UpdateRef(refs[i])) == "update-ref " + refs[i]
  {
  }

  lemma FlushOneMore(refs: seq<string>, i: nat)
    requires i < |refs|
    ensures WriteText(Flush(refs[..i + 1])) == WriteText(Flush(refs[..i])) + ("update-ref " + refs[i] + "\n")
  {
    hide *;
    FlushSplit(refs, i);
    TextOfBoth(Flush(refs[..i]), [UpdateRef(refs[i])]);
    TextOfOne(UpdateRef(refs[i]));
  }

  method FlushRefs(rewritten: string, pending: seq<string>) returns (next: string)
    ensures next == rewritten + WriteText(Flush(pending))
  {
    next := rewritten;
    assert WriteText(Flush(pending[..0])) == "";
    for i := 0 to |pending|
      invariant next == rewritten + WriteText(Flush(pending[..i]))
    {
      hide WriteText, Flush;
      FlushOneMore(pending, i);
      Joins(rewritten, WriteText(Flush(pending[..i])), "update-ref " + pending[i] + "\n");
      next := next + ("update-ref " + pending[i] + "\n");
    }
    assert pending[..|pending|] == pending;
  }

  function TodoLine(action: string, commit: TodoCommit): string {
    action + " " + commit.sha + (if commit.rest == "" then "" else " " + commit.rest) + "\n"
  }

  lemma TodoLineWrites(todo: Todo, step: PlanStep)
    requires step.todo < |todo.commits|
    ensures TodoLine(step.action, todo.commits[step.todo]) == WriteText([Write(todo, step)])
  {
    TextOfOne(Write(todo, step));
  }

  // What a step does to the texts written so far.
  lemma StepText(todo: Todo, steps: seq<PlanStep>, k: nat)
    requires InTodo(todo, steps) && k < |steps|
    ensures var w, v, step := Walked(todo, steps[..k]), Walked(todo, steps[..k + 1]), steps[k];
      var commit := todo.commits[step.todo];
      var line := TodoLine(step.action, commit);
      if step.action == "drop" then
        v.out == w.out && WriteText(v.drops) == WriteText(w.drops) + line && v.pending == w.pending + commit.refs
      else if step.action == "squash" || step.action == "fixup" then
        WriteText(v.out) == WriteText(w.out) + line && v.drops == w.drops && v.pending == w.pending + commit.refs
      else
        WriteText(v.out) == WriteText(w.out) + WriteText(Flush(w.pending)) + line && v.drops == w.drops && v.pending == commit.refs
  {
    var w, step := Walked(todo, steps[..k]), steps[k];
    assert steps[..k + 1][..k] == steps[..k] && steps[..k + 1][k] == step;
    TodoLineWrites(todo, step);
    TextOfBoth(w.drops, [Write(todo, step)]);
    TextOfBoth(w.out, [Write(todo, step)]);
    TextOfBoth(w.out, Flush(w.pending));
    TextOfBoth(w.out + Flush(w.pending), [Write(todo, step)]);
    hide WriteText, TodoLine, Write, Flush;
  }

  lemma Prefixes(todo: Todo, steps: seq<PlanStep>)
    requires InTodo(todo, steps)
    ensures forall k :: 0 <= k <= |steps| ==> InTodo(todo, steps[..k])
    ensures forall k :: 0 <= k < |steps| ==> steps[k].todo < |todo.commits|
    ensures steps[..|steps|] == steps
  {
  }

  lemma BeforeSteps(todo: Todo, steps: seq<PlanStep>)
    ensures WriteText([]) == "" && InTodo(todo, steps[..0]) && Walked(todo, steps[..0]) == Walk([], [], todo.leading)
  {
  }

  lemma WholeText(todo: Todo, steps: seq<PlanStep>)
    requires InTodo(todo, steps)
    ensures var w := Walked(todo, steps);
      WriteText(Rewritten(todo, steps)) == WriteText(w.out) + WriteText(Flush(w.pending)) + WriteText(w.drops)
  {
    var w := Walked(todo, steps);
    TextOfBoth(w.out, Flush(w.pending));
    TextOfBoth(w.out + Flush(w.pending), w.drops);
    hide WriteText, Walked, Flush;
  }

  method Rewrite(todo: Todo, steps: seq<PlanStep>) returns (rewritten: string)
    requires InTodo(todo, steps)
    ensures rewritten == WriteText(Rewritten(todo, steps))
  {
    hide *;
    rewritten := "";
    var drops := "";
    var pendingRefs := todo.leading;
    Prefixes(todo, steps);
    BeforeSteps(todo, steps);
    for k := 0 to |steps|
      invariant rewritten == WriteText(Walked(todo, steps[..k]).out)
      invariant drops == WriteText(Walked(todo, steps[..k]).drops)
      invariant pendingRefs == Walked(todo, steps[..k]).pending
    {
      var step := steps[k];
      var commit := todo.commits[step.todo];
      StepText(todo, steps, k);
      if step.action == "drop" {
        drops := drops + TodoLine("drop", commit);
      } else {
        if step.action != "squash" && step.action != "fixup" {
          rewritten := FlushRefs(rewritten, pendingRefs);
          pendingRefs := [];
        }
        rewritten := rewritten + TodoLine(step.action, commit);
      }
      pendingRefs := pendingRefs + commit.refs;
    }
    WholeText(todo, steps);
    rewritten := FlushRefs(rewritten, pendingRefs);
    rewritten := rewritten + drops;
  }

  // ----- what a todo means --------------------------------------------------

  // Where a ref is put: on the commit that many deep, 0 being the base, with
  // the shas folded into it by then.
  datatype Placed = Placed(name: string, depth: nat, members: seq<string>)

  // The commits made, each from the shas squashed into it, and the refs put.
  datatype History = History(commits: seq<seq<string>>, placed: seq<Placed>)

  function Fold(commits: seq<seq<string>>, sha: string): seq<seq<string>>
    requires commits != []
  {
    commits[..|commits| - 1] + [commits[|commits| - 1] + [sha]]
  }

  function Top(commits: seq<seq<string>>): seq<string> {
    if commits == [] then [] else commits[|commits| - 1]
  }

  function Run(h: History, out: Out): Option<History> {
    match out
    case UpdateRef(name) => Some(h.(placed := h.placed + [Placed(name, |h.commits|, Top(h.commits))]))
    case Step(action, sha, _) =>
      if action == "drop" then Some(h)
      else if !IsFold(action) then Some(h.(commits := h.commits + [[sha]]))
      else if h.commits == [] then None  // nothing to fold into
      else Some(h.(commits := Fold(h.commits, sha)))
  }

  // Git replaying a todo onto the base.
  function Replay(h: History, outs: seq<Out>): Option<History>
    decreases outs
  {
    if outs == [] then Some(h) else
      match Run(h, outs[0])
      case None => None
      case Some(next) => Replay(next, outs[1..])
  }

  lemma {:induction false} ReplayBoth(h: History, a: seq<Out>, b: seq<Out>)
    ensures Replay(h, a + b) == match Replay(h, a) case None => None case Some(next) => Replay(next, b)
    decreases a
  {
    if a == [] {
      assert a + b == b;
    } else {
      assert (a + b)[1..] == a[1..] + b;
      match Run(h, a[0]) {
        case None =>
        case Some(next) => ReplayBoth(next, a[1..], b);
      }
    }
  }

  // The refs all put where the history now stands.
  function Puts(h: History, refs: seq<string>): seq<Placed> {
    seq(|refs|, i requires 0 <= i < |refs| => Placed(refs[i], |h.commits|, Top(h.commits)))
  }

  lemma {:induction false} ReplayRefs(h: History, refs: seq<string>)
    ensures Replay(h, Flush(refs)) == Some(h.(placed := h.placed + Puts(h, refs)))
    decreases refs
  {
    if refs == [] {
      assert h.placed + Puts(h, refs) == h.placed;
    } else {
      var first := Placed(refs[0], |h.commits|, Top(h.commits));
      var next := h.(placed := h.placed + [first]);
      ReplayRefs(next, refs[1..]);
      assert Flush(refs)[1..] == Flush(refs[1..]);
      assert Puts(h, refs) == [first] + Puts(next, refs[1..]);
      assert h.placed + Puts(h, refs) == next.placed + Puts(next, refs[1..]);
    }
  }

  lemma {:induction false} ReplayDrops(h: History, drops: seq<Out>)
    requires forall d :: d in drops ==> d.Step? && d.action == "drop"
    ensures Replay(h, drops) == Some(h)
  {
    if drops != [] {
      ReplayDrops(h, drops[1..]);
    }
  }

  // ----- what the plan means ------------------------------------------------

  // The first step kept is no fold.
  predicate Startable(steps: seq<PlanStep>) {
    steps == [] || (if steps[0].action == "drop" then Startable(steps[1..]) else !IsFold(steps[0].action))
  }

  predicate AllDropped(steps: seq<PlanStep>) {
    steps == [] || (steps[0].action == "drop" && AllDropped(steps[1..]))
  }

  lemma {:induction false} StartableLast(steps: seq<PlanStep>)
    requires steps != []
    ensures var init, last := steps[..|steps| - 1], steps[|steps| - 1];
      && (Startable(steps) <==> Startable(init) && (AllDropped(init) ==> !IsFold(last.action)))
      && (AllDropped(steps) <==> AllDropped(init) && last.action == "drop")
  {
    if |steps| > 1 {
      assert steps[1..][..|steps| - 2] == steps[..|steps| - 1][1..];
      StartableLast(steps[1..]);
    }
  }

  // The commits the plan asks for: kept ones in its order, squashes and
  // fixups folded into the one before.
  function Planning(todo: Todo, steps: seq<PlanStep>): (commits: seq<seq<string>>)
    requires InTodo(todo, steps)
  {
    if steps == [] then [] else
      var before, step := Planning(todo, steps[..|steps| - 1]), steps[|steps| - 1];
      var sha := todo.commits[step.todo].sha;
      if step.action == "drop" then before
      else if !IsFold(step.action) then before + [[sha]]
      else if before == [] then []
      else Fold(before, sha)
  }

  datatype Wanted = Wanted(name: string, depth: nat)

  function AllAt(refs: seq<string>, depth: nat): seq<Wanted> {
    seq(|refs|, i requires 0 <= i < |refs| => Wanted(refs[i], depth))
  }

  // Where the plan wants every ref: on the commit holding the last kept step
  // at or before the commit it followed, or on the base.
  function Wants(todo: Todo, steps: seq<PlanStep>): seq<Wanted>
    requires InTodo(todo, steps)
  {
    if steps == [] then AllAt(todo.leading, 0) else
      Wants(todo, steps[..|steps| - 1]) + AllAt(todo.commits[steps[|steps| - 1].todo].refs, |Planning(todo, steps)|)
  }

  // A ref on the commit wanted, with everything the plan folds into it.
  predicate PutRight(put: Placed, want: Wanted, commits: seq<seq<string>>) {
    && put.name == want.name && put.depth == want.depth <= |commits|
    && put.members == if want.depth == 0 then [] else commits[want.depth - 1]
  }

  // The refs put so far are the first wanted, each on a finished commit; the
  // pending ones are the rest, all wanted on the commit now at the top.
  ghost predicate OnTrack(todo: Todo, steps: seq<PlanStep>, h: History)
    requires InTodo(todo, steps)
  {
    var w, wants := Walked(todo, steps), Wants(todo, steps);
    && h.commits == Planning(todo, steps)
    && |wants| == |h.placed| + |w.pending|
    && wants[|h.placed|..] == AllAt(w.pending, |h.commits|)
    && forall i :: 0 <= i < |h.placed| ==> PutRight(h.placed[i], wants[i], h.commits) && wants[i].depth < |h.commits|
  }

  const START := History([], [])

  // The history after one more step of the plan.
  function Next(todo: Todo, steps: seq<PlanStep>, h: History): History
    requires steps != [] && InTodo(todo, steps)
    requires IsFold(steps[|steps| - 1].action) ==> h.commits != []
  {
    var step, w := steps[|steps| - 1], Walked(todo, steps[..|steps| - 1]);
    var sha := todo.commits[step.todo].sha;
    if step.action == "drop" then h
    else if IsFold(step.action) then h.(commits := Fold(h.commits, sha))
    else History(h.commits + [[sha]], h.placed + Puts(h, w.pending))
  }

  lemma ReplayOne(h: History, out: Out)
    ensures Replay(h, [out]) == Run(h, out)
  {
    assert [out][1..] == [];
    match Run(h, out) {
      case None =>
      case Some(next) => assert Replay(next, []) == Some(next);
    }
  }

  lemma NextReplays(todo: Todo, steps: seq<PlanStep>, h: History)
    requires steps != [] && InTodo(todo, steps) && Replay(START, Walked(todo, steps[..|steps| - 1]).out) == Some(h)
    requires IsFold(steps[|steps| - 1].action) ==> h.commits != []
    ensures Replay(START, Walked(todo, steps).out) == Some(Next(todo, steps, h))
  {
    var w, step := Walked(todo, steps[..|steps| - 1]), steps[|steps| - 1];
    var out := Write(todo, step);
    if step.action != "drop" {
      if IsFold(step.action) {
        ReplayBoth(START, w.out, [out]);
        ReplayOne(h, out);
      } else {
        ReplayRefs(h, w.pending);
        ReplayBoth(START, w.out, Flush(w.pending));
        ReplayBoth(START, w.out + Flush(w.pending), [out]);
        ReplayOne(h.(placed := h.placed + Puts(h, w.pending)), out);
      }
    }
  }

  lemma NextOnTrack(todo: Todo, steps: seq<PlanStep>, h: History)
    requires steps != [] && InTodo(todo, steps) && OnTrack(todo, steps[..|steps| - 1], h)
    requires IsFold(steps[|steps| - 1].action) ==> h.commits != []
    ensures OnTrack(todo, steps, Next(todo, steps, h))
  {
    var step := steps[|steps| - 1];
    if step.action == "drop" || IsFold(step.action) {
      FoldOnTrack(todo, steps, h);
    } else {
      PickOnTrack(todo, steps, h);
    }
  }

  lemma FoldOnTrack(todo: Todo, steps: seq<PlanStep>, h: History)
    requires steps != [] && InTodo(todo, steps) && OnTrack(todo, steps[..|steps| - 1], h)
    requires steps[|steps| - 1].action == "drop" || (IsFold(steps[|steps| - 1].action) && h.commits != [])
    ensures OnTrack(todo, steps, Next(todo, steps, h))
  {
    var init, step := steps[..|steps| - 1], steps[|steps| - 1];
    var wants, w, refs, next := Wants(todo, init), Walked(todo, init), todo.commits[step.todo].refs, Next(todo, steps, h);
    assert next.placed == h.placed && |next.commits| == |h.commits| && next.commits == Planning(todo, steps);
    assert Walked(todo, steps).pending == w.pending + refs && Wants(todo, steps) == wants + AllAt(refs, |h.commits|);
    hide Wants, Walked, Planning;
    AllAtBoth(w.pending, refs, |h.commits|);
    forall i | 0 <= i < |h.placed| ensures PutRight(h.placed[i], wants[i], next.commits) {
      PutStays(h.placed[i], wants[i], h.commits, next.commits);
    }
    hide AllAt, Next, PutRight;
  }

  lemma PickOnTrack(todo: Todo, steps: seq<PlanStep>, h: History)
    requires steps != [] && InTodo(todo, steps) && OnTrack(todo, steps[..|steps| - 1], h)
    requires steps[|steps| - 1].action != "drop" && !IsFold(steps[|steps| - 1].action)
    ensures OnTrack(todo, steps, Next(todo, steps, h))
  {
    var init, step := steps[..|steps| - 1], steps[|steps| - 1];
    var wants, w, refs, next := Wants(todo, init), Walked(todo, init), todo.commits[step.todo].refs, Next(todo, steps, h);
    var now := Wants(todo, steps);
    assert next.commits == Planning(todo, steps) == h.commits + [[todo.commits[step.todo].sha]];
    assert Walked(todo, steps).pending == refs && now == wants + AllAt(refs, |next.commits|);
    assert next.placed == h.placed + Puts(h, w.pending);
    hide Wants, Walked, Planning, Next;
    forall i | 0 <= i < |next.placed| ensures PutRight(next.placed[i], now[i], next.commits) && now[i].depth < |next.commits| {
      if i < |h.placed| {
        PutStays(h.placed[i], wants[i], h.commits, next.commits);
      } else {
        assert wants[i] == wants[|h.placed|..][i - |h.placed|];
        assert wants[i].depth == |h.commits| && next.placed[i].members == Top(h.commits);
        assert forall d :: 0 <= d < |h.commits| ==> next.commits[d] == h.commits[d];
      }
    }
    hide PutRight, Puts;
  }

  lemma PutStays(put: Placed, want: Wanted, commits: seq<seq<string>>, next: seq<seq<string>>)
    requires PutRight(put, want, commits) && want.depth < |commits| <= |next|
    requires forall k :: 0 <= k < want.depth ==> next[k] == commits[k]
    ensures PutRight(put, want, next)
  {
    assert next[..want.depth] == commits[..want.depth];
  }

  lemma AllAtBoth(a: seq<string>, b: seq<string>, depth: nat)
    ensures AllAt(a + b, depth) == AllAt(a, depth) + AllAt(b, depth)
  {
  }

  lemma {:induction false} WalkReplays(todo: Todo, steps: seq<PlanStep>) returns (h: History)
    requires InTodo(todo, steps) && Startable(steps)
    ensures Replay(START, Walked(todo, steps).out) == Some(h) && OnTrack(todo, steps, h)
    ensures h.commits == [] <==> AllDropped(steps)
  {
    if steps == [] {
      h := START;
      assert Wants(todo, steps)[0..] == AllAt(todo.leading, 0);
    } else {
      StartableLast(steps);
      h := WalkReplays(todo, steps[..|steps| - 1]);
      NextReplays(todo, steps, h);
      NextOnTrack(todo, steps, h);
      h := Next(todo, steps, h);
    }
  }

  lemma {:induction false} WalkStops(todo: Todo, steps: seq<PlanStep>)
    requires InTodo(todo, steps)
    ensures !Startable(steps) ==> Replay(START, Walked(todo, steps).out) == None
    ensures AllDropped(steps) ==> Walked(todo, steps).out == []
  {
    if steps != [] {
      var init, step := steps[..|steps| - 1], steps[|steps| - 1];
      StartableLast(steps);
      WalkStops(todo, init);
      var w, out := Walked(todo, init), Write(todo, step);
      if !Startable(init) {
        ReplayBoth(START, w.out, [out]);
        ReplayBoth(START, w.out, Flush(w.pending));
        ReplayBoth(START, w.out + Flush(w.pending), [out]);
      } else if !Startable(steps) {
        assert w.out + [out] == [out];
      }
    }
  }

  lemma {:induction false} DropsAreDrops(todo: Todo, steps: seq<PlanStep>)
    requires InTodo(todo, steps)
    ensures forall d :: d in Walked(todo, steps).drops ==> d.Step? && d.action == "drop"
  {
    if steps != [] {
      DropsAreDrops(todo, steps[..|steps| - 1]);
    }
  }

  // What git makes of the rewritten todo is what the plan asks for: its
  // commits, and every ref on the finished commit it is wanted on. Git cannot
  // replay it exactly when the first step kept is a fold.
  lemma ReplaysPlan(todo: Todo, steps: seq<PlanStep>)
    requires InTodo(todo, steps)
    ensures var r := Replay(START, Rewritten(todo, steps));
      && (r.Some? <==> Startable(steps))
      && (r.Some? ==>
            && r.value.commits == Planning(todo, steps)
            && |r.value.placed| == |Wants(todo, steps)|
            && forall i :: 0 <= i < |r.value.placed| ==> PutRight(r.value.placed[i], Wants(todo, steps)[i], Planning(todo, steps)))
  {
    var w := Walked(todo, steps);
    ReplayBoth(START, w.out, Flush(w.pending));
    ReplayBoth(START, w.out + Flush(w.pending), w.drops);
    WalkStops(todo, steps);
    if Startable(steps) {
      var h := WalkReplays(todo, steps);
      ReplayRefs(h, w.pending);
      DropsAreDrops(todo, steps);
      var put := h.(placed := h.placed + Puts(h, w.pending));
      ReplayDrops(put, w.drops);
      AllPut(todo, steps, h);
      hide *;
    }
  }

  // Once the pending refs are put too, every ref is where it is wanted.
  lemma AllPut(todo: Todo, steps: seq<PlanStep>, h: History)
    requires InTodo(todo, steps) && OnTrack(todo, steps, h)
    ensures var wants, placed := Wants(todo, steps), h.placed + Puts(h, Walked(todo, steps).pending);
      && |placed| == |wants|
      && forall i :: 0 <= i < |placed| ==> PutRight(placed[i], wants[i], Planning(todo, steps))
  {
    var wants, w := Wants(todo, steps), Walked(todo, steps);
    var placed := h.placed + Puts(h, w.pending);
    hide Walked, Wants, Planning, PutRight;
    forall i | 0 <= i < |placed| ensures PutRight(placed[i], wants[i], h.commits) {
      if i >= |h.placed| {
        assert wants[i] == wants[|h.placed|..][i - |h.placed|];
        PutLast(h, w.pending, i - |h.placed|);
      }
    }
  }

  lemma PutLast(h: History, refs: seq<string>, i: nat)
    requires i < |refs|
    ensures PutRight(Puts(h, refs)[i], AllAt(refs, |h.commits|)[i], h.commits)
  {
    var put, want := Puts(h, refs)[i], AllAt(refs, |h.commits|)[i];
    assert put.name == want.name;
    assert put.depth == want.depth == |h.commits|;
    assert put.members == Top(h.commits);
  }

  // ----- nothing lost, nothing twice ----------------------------------------

  function StepsOf(outs: seq<Out>): seq<Out> {
    if outs == [] then [] else
      StepsOf(outs[..|outs| - 1]) + if outs[|outs| - 1].Step? then [outs[|outs| - 1]] else []
  }

  function RefsOf(outs: seq<Out>): seq<string> {
    if outs == [] then [] else
      RefsOf(outs[..|outs| - 1]) + if outs[|outs| - 1].UpdateRef? then [outs[|outs| - 1].name] else []
  }

  lemma {:induction false} OfBoth(a: seq<Out>, b: seq<Out>)
    ensures StepsOf(a + b) == StepsOf(a) + StepsOf(b) && RefsOf(a + b) == RefsOf(a) + RefsOf(b)
  {
    if b == [] {
      assert a + b == a;
    } else {
      assert (a + b)[..|a + b| - 1] == a + b[..|b| - 1];
      OfBoth(a, b[..|b| - 1]);
    }
  }

  lemma {:induction false} OfFlush(refs: seq<string>)
    ensures StepsOf(Flush(refs)) == [] && RefsOf(Flush(refs)) == refs
  {
    if refs != [] {
      assert Flush(refs)[..|refs| - 1] == Flush(refs[..|refs| - 1]);
      OfFlush(refs[..|refs| - 1]);
    }
  }

  lemma {:induction false} OfDrops(drops: seq<Out>)
    requires forall d :: d in drops ==> d.Step?
    ensures StepsOf(drops) == drops && RefsOf(drops) == []
  {
    if drops != [] {
      OfDrops(drops[..|drops| - 1]);
    }
  }

  // The steps of one kind, in the plan's order, and the refs in that order.
  function InPlanOrder(todo: Todo, steps: seq<PlanStep>, dropped: bool): seq<Out>
    requires InTodo(todo, steps)
  {
    if steps == [] then [] else
      InPlanOrder(todo, steps[..|steps| - 1], dropped)
        + if (steps[|steps| - 1].action == "drop") == dropped then [Write(todo, steps[|steps| - 1])] else []
  }

  function RefsInOrder(todo: Todo, steps: seq<PlanStep>): seq<string>
    requires InTodo(todo, steps)
  {
    if steps == [] then todo.leading else
      RefsInOrder(todo, steps[..|steps| - 1]) + todo.commits[steps[|steps| - 1].todo].refs
  }

  ghost predicate Ordered(todo: Todo, steps: seq<PlanStep>)
    requires InTodo(todo, steps)
  {
    var w := Walked(todo, steps);
    && StepsOf(w.out) == InPlanOrder(todo, steps, false) && w.drops == InPlanOrder(todo, steps, true)
    && RefsOf(w.out) + w.pending == RefsInOrder(todo, steps)
  }

  lemma {:induction false} WalkOrder(todo: Todo, steps: seq<PlanStep>)
    requires InTodo(todo, steps)
    ensures Ordered(todo, steps)
  {
    if steps == [] {
      assert RefsOf([]) + todo.leading == todo.leading;
    } else {
      WalkOrder(todo, steps[..|steps| - 1]);
      WalkOrderLast(todo, steps);
    }
  }

  lemma Glue<T>(a: seq<T>, b: seq<T>, c: seq<T>)
    ensures a + (b + c) == a + b + c && a + [] + b == a + b && a + b + [] == a + b && a + [] == a
  {
  }

  lemma OutOfFold(out: seq<Out>, step: Out)
    requires step.Step?
    ensures StepsOf(out + [step]) == StepsOf(out) + [step] && RefsOf(out + [step]) == RefsOf(out)
  {
    OfDrops([step]);
    OfBoth(out, [step]);
    Glue(RefsOf(out), [], []);
    hide StepsOf, RefsOf;
  }

  lemma OutOfPick(out: seq<Out>, pending: seq<string>, step: Out)
    requires step.Step?
    ensures StepsOf(out + Flush(pending) + [step]) == StepsOf(out) + [step]
    ensures RefsOf(out + Flush(pending) + [step]) == RefsOf(out) + pending
  {
    OfFlush(pending);
    OfBoth(out, Flush(pending));
    Glue(StepsOf(out), [], []);
    hide StepsOf, RefsOf;
    OutOfFold(out + Flush(pending), step);
  }

  // What one more step adds to the walk, kept, dropped or referred to.
  lemma WalkAdds(todo: Todo, steps: seq<PlanStep>)
    requires InTodo(todo, steps) && steps != []
    ensures var w, v, step := Walked(todo, steps[..|steps| - 1]), Walked(todo, steps), steps[|steps| - 1];
      && StepsOf(v.out) == StepsOf(w.out) + (if step.action == "drop" then [] else [Write(todo, step)])
      && v.drops == w.drops + (if step.action == "drop" then [Write(todo, step)] else [])
      && RefsOf(v.out) + v.pending == RefsOf(w.out) + w.pending + todo.commits[step.todo].refs
  {
    var step, w, v := steps[|steps| - 1], Walked(todo, steps[..|steps| - 1]), Walked(todo, steps);
    var out, refs := Write(todo, step), todo.commits[step.todo].refs;
    assert out.Step?;
    hide StepsOf, RefsOf, Write, Flush;
    Glue(RefsOf(w.out), w.pending, refs);
    if step.action == "drop" {
      Glue(StepsOf(w.out), [], []);
    } else if IsFold(step.action) {
      OutOfFold(w.out, out);
      Glue(w.drops, [], []);
    } else {
      OutOfPick(w.out, w.pending, out);
      Glue(w.drops, [], []);
    }
    hide Walked;
  }

  lemma WalkOrderLast(todo: Todo, steps: seq<PlanStep>)
    requires InTodo(todo, steps) && steps != [] && Ordered(todo, steps[..|steps| - 1])
    ensures Ordered(todo, steps)
  {
    WalkAdds(todo, steps);
    hide StepsOf, RefsOf, Write, Walked;
  }

  // Kept steps in the plan's order, then drops in the plan's order; refs in
  // the plan's order too.
  lemma RewrittenOrder(todo: Todo, steps: seq<PlanStep>)
    requires InTodo(todo, steps)
    ensures StepsOf(Rewritten(todo, steps)) == InPlanOrder(todo, steps, false) + InPlanOrder(todo, steps, true)
    ensures RefsOf(Rewritten(todo, steps)) == RefsInOrder(todo, steps)
  {
    var w := Walked(todo, steps);
    WalkOrder(todo, steps);
    DropsAreDrops(todo, steps);
    OfDrops(w.drops);
    OfFlush(w.pending);
    OfBoth(w.out, Flush(w.pending));
    OfBoth(w.out + Flush(w.pending), w.drops);
    hide StepsOf, RefsOf, Walked, InPlanOrder, RefsInOrder;
    var kept := InPlanOrder(todo, steps, false);
    assert StepsOf(w.out + Flush(w.pending)) == kept + [] == kept;
  }

  // A sum of bags over the indices in order.
  function Sum<T>(bags: seq<multiset<T>>, order: seq<nat>): multiset<T>
    requires InBags(order, |bags|)
  {
    if order == [] then multiset{} else Sum(bags, order[..|order| - 1]) + bags[order[|order| - 1]]
  }

  predicate IsOrder(order: seq<nat>, n: nat) {
    && (forall k :: 0 <= k < |order| ==> order[k] < n)
    && (forall j, k :: 0 <= j < k < |order| ==> order[j] != order[k])
    && forall i :: 0 <= i < n ==> i in order
  }

  predicate InBags(order: seq<nat>, n: nat) {
    forall k :: 0 <= k < |order| ==> order[k] < n
  }

  lemma LastSummed<T>(bags: seq<multiset<T>>, order: seq<nat>)
    requires InBags(order, |bags|) && order != []
    ensures InBags(order[..|order| - 1], |bags|)
    ensures Sum(bags, order) == Sum(bags, order[..|order| - 1]) + bags[order[|order| - 1]]
  {
  }

  // Leaving one out and then the last is leaving out the last and then one.
  lemma WithoutLast(order: seq<nat>, k: nat, n: nat)
    requires k < |order| && InBags(order, n)
    ensures var m, less := |order| - 1, order[..k] + order[k + 1..];
      && InBags(less, n)
      && (k == m ==> less == order[..m])
      && (k < m ==> less != [] && less[..|less| - 1] == order[..m][..k] + order[..m][k + 1..] && less[|less| - 1] == order[m])
  {
  }

  lemma {:induction false} SumWithout<T>(bags: seq<multiset<T>>, order: seq<nat>, k: nat)
    requires k < |order| && InBags(order, |bags|)
    ensures InBags(order[..k] + order[k + 1..], |bags|)
    ensures Sum(bags, order) == Sum(bags, order[..k] + order[k + 1..]) + bags[order[k]]
    decreases |order|
  {
    var m, less := |order| - 1, order[..k] + order[k + 1..];
    WithoutLast(order, k, |bags|);
    LastSummed(bags, order);
    hide Sum;
    if k < m {
      SumWithout(bags, order[..m], k);
      LastSummed(bags, less);
    }
  }

  lemma {:induction false} SumFewer<T>(bags: seq<multiset<T>>, order: seq<nat>, n: nat)
    requires n <= |bags| && InBags(order, n)
    ensures Sum(bags, order) == Sum(bags[..n], order)
  {
    if order != [] {
      SumFewer(bags, order[..|order| - 1], n);
    }
  }

  function Total<T>(bags: seq<multiset<T>>): multiset<T> {
    if bags == [] then multiset{} else Total(bags[..|bags| - 1]) + bags[|bags| - 1]
  }

  lemma OrderWithout(order: seq<nat>, n: nat, k: nat)
    requires IsOrder(order, n + 1) && k < |order| && order[k] == n
    ensures IsOrder(order[..k] + order[k + 1..], n)
  {
    var less := order[..k] + order[k + 1..];
    forall j | 0 <= j < |less| ensures less[j] == order[if j < k then j else j + 1] < n {
    }
    forall i | 0 <= i < n ensures i in less {
      assert i in order;
      var j :| 0 <= j < |order| && order[j] == i;
      assert less[if j < k then j else j - 1] == i;
    }
  }

  // In whatever order the bags are taken, each once, the sum is the same.
  lemma {:induction false} AnyOrder<T>(bags: seq<multiset<T>>, order: seq<nat>)
    requires IsOrder(order, |bags|)
    ensures Sum(bags, order) == Total(bags)
    decreases |bags|
  {
    if bags == [] {
    } else {
      var n := |bags| - 1;
      assert n in order;
      var k :| 0 <= k < |order| && order[k] == n;
      SumWithout(bags, order, k);
      var less := order[..k] + order[k + 1..];
      OrderWithout(order, n, k);
      SumFewer(bags, less, n);
      AnyOrder(bags[..n], less);
    }
  }

  // A commit's lines as one bag, and the commits of the plan's steps.
  function Bags(todo: Todo): seq<multiset<Item>> {
    seq(|todo.commits|, i requires 0 <= i < |todo.commits| =>
      multiset{Commit(todo.commits[i].sha, todo.commits[i].rest)} + multiset(RefItems(todo.commits[i].refs)))
  }

  function OrderOf(steps: seq<PlanStep>): seq<nat> {
    seq(|steps|, k requires 0 <= k < |steps| => steps[k].todo)
  }

  lemma ItemsOfBoth(a: seq<Out>, b: seq<Out>)
    ensures AsItems(a + b) == AsItems(a) + AsItems(b)
  {
  }

  lemma ItemsOfFlush(refs: seq<string>, more: seq<string>)
    ensures AsItems(Flush(refs)) == RefItems(refs) && RefItems(refs + more) == RefItems(refs) + RefItems(more)
  {
  }

  lemma {:induction false} WalkBag(todo: Todo, steps: seq<PlanStep>)
    requires InTodo(todo, steps)
    ensures var w := Walked(todo, steps);
      multiset(AsItems(w.out)) + multiset(RefItems(w.pending)) + multiset(AsItems(w.drops))
        == multiset(RefItems(todo.leading)) + Sum(Bags(todo), OrderOf(steps))
  {
    if steps != [] {
      var init, step := steps[..|steps| - 1], steps[|steps| - 1];
      WalkBag(todo, init);
      assert OrderOf(steps)[..|steps| - 1] == OrderOf(init);
      WalkBagLast(todo, steps);
    }
  }

  lemma WalkBagLast(todo: Todo, steps: seq<PlanStep>)
    requires InTodo(todo, steps) && steps != []
    ensures var w, v := Walked(todo, steps[..|steps| - 1]), Walked(todo, steps);
      multiset(AsItems(v.out)) + multiset(RefItems(v.pending)) + multiset(AsItems(v.drops))
        == multiset(AsItems(w.out)) + multiset(RefItems(w.pending)) + multiset(AsItems(w.drops))
           + Bags(todo)[steps[|steps| - 1].todo]
  {
    var step, w := steps[|steps| - 1], Walked(todo, steps[..|steps| - 1]);
    var out, refs := Write(todo, step), todo.commits[step.todo].refs;
    assert AsItems([out]) == [Commit(todo.commits[step.todo].sha, todo.commits[step.todo].rest)];
    ItemsOfBoth(w.out, [out]);
    ItemsOfBoth(w.drops, [out]);
    ItemsOfBoth(w.out, Flush(w.pending));
    ItemsOfBoth(w.out + Flush(w.pending), [out]);
    ItemsOfFlush(w.pending, refs);
    hide AsItems, RefItems, Flush;
  }

  lemma {:induction false} FlattenBag(todo: Todo)
    ensures multiset(FlattenCommits(todo.commits)) == Total(Bags(todo))
    decreases |todo.commits|
  {
    hide *;
    if todo.commits == [] {
      NoBags(todo);
    } else {
      var n := |todo.commits| - 1;
      var init, last := todo.(commits := todo.commits[..n]), todo.commits[n];
      FlattenBag(init);
      BagsSplit(todo, init);
      FlattenSplit(todo.commits);
      BagOfThree(FlattenCommits(init.commits), Commit(last.sha, last.rest), RefItems(last.refs));
    }
  }

  lemma NoBags(todo: Todo)
    requires todo.commits == []
    ensures multiset(FlattenCommits(todo.commits)) == Total(Bags(todo))
  {
  }

  lemma FlattenSplit(commits: seq<TodoCommit>)
    requires commits != []
    ensures var last := commits[|commits| - 1];
      FlattenCommits(commits) == FlattenCommits(commits[..|commits| - 1]) + [Commit(last.sha, last.rest)] + RefItems(last.refs)
  {
    hide RefItems;
  }

  lemma BagsSplit(todo: Todo, init: Todo)
    requires todo.commits != [] && init == todo.(commits := todo.commits[..|todo.commits| - 1])
    ensures var last := todo.commits[|todo.commits| - 1];
      Total(Bags(todo)) == Total(Bags(init)) + (multiset{Commit(last.sha, last.rest)} + multiset(RefItems(last.refs)))
  {
    hide RefItems;
    assert Bags(todo)[..|todo.commits| - 1] == Bags(init);
  }

  lemma BagOfThree<T>(a: seq<T>, x: T, b: seq<T>)
    ensures multiset(a + [x] + b) == multiset(a) + (multiset{x} + multiset(b))
  {
  }

  // A plan that matches writes every line of the todo once: each commit, kept
  // or dropped, and each update-ref.
  lemma EachLineOnce(plan: seq<Entry>, todo: Todo, steps: seq<PlanStep>)
    requires Matched(plan, todo.commits, steps)
    ensures InTodo(todo, steps) && multiset(AsItems(Rewritten(todo, steps))) == multiset(Flatten(todo))
  {
    assert InTodo(todo, steps);
    assert IsOrder(OrderOf(steps), |Bags(todo)|) by {
      forall i | 0 <= i < |todo.commits| ensures i in OrderOf(steps) {
        assert Planned(steps, i);
        var k :| 0 <= k < |steps| && steps[k].todo == i;
        assert OrderOf(steps)[k] == i;
      }
    }
    WalkBag(todo, steps);
    AnyOrder(Bags(todo), OrderOf(steps));
    FlattenBag(todo);
    var w := Walked(todo, steps);
    ItemsOfFlush(w.pending, []);
    ItemsOfBoth(w.out, Flush(w.pending));
    ItemsOfBoth(w.out + Flush(w.pending), w.drops);
  }

  // ----- a plan that changes nothing ----------------------------------------

  function Picks(n: nat): seq<PlanStep> {
    seq(n, i requires 0 <= i < n => PlanStep("pick", i))
  }

  lemma PickedItems(before: seq<Out>, out: Out, refs: seq<string>)
    ensures AsItems(before + [out] + Flush(refs)) == AsItems(before) + [AsItem(out)] + RefItems(refs)
  {
    ItemsOfBoth(before, [out]);
    ItemsOfBoth(before + [out], Flush(refs));
    ItemsOfFlush(refs, []);
  }

  lemma {:induction false} PicksWalk(todo: Todo, n: nat)
    requires n <= |todo.commits|
    ensures InTodo(todo, Picks(n))
    ensures var w := Walked(todo, Picks(n));
      w.drops == [] && AsItems(w.out + Flush(w.pending)) == Flatten(todo.(commits := todo.commits[..n]))
  {
    if n == 0 {
      ItemsOfFlush(todo.leading, []);
      assert [] + Flush(todo.leading) == Flush(todo.leading);
      assert RefItems(todo.leading) + [] == RefItems(todo.leading);
    } else {
      PicksWalk(todo, n - 1);
      var w, out, refs := Walked(todo, Picks(n - 1)), Write(todo, PlanStep("pick", n - 1)), todo.commits[n - 1].refs;
      assert Picks(n)[..n - 1] == Picks(n - 1) && Picks(n)[n - 1] == PlanStep("pick", n - 1);
      assert Walked(todo, Picks(n)) == Walk(w.out + Flush(w.pending) + [out], w.drops, refs);
      PickedItems(w.out + Flush(w.pending), out, refs);
      hide AsItems, Walked, Flush, Picks;
      assert todo.commits[..n][..n - 1] == todo.commits[..n - 1];
      Glue(RefItems(todo.leading), FlattenCommits(todo.commits[..n - 1]), [AsItem(out)]);
      Glue(RefItems(todo.leading), FlattenCommits(todo.commits[..n - 1]) + [AsItem(out)], RefItems(refs));
    }
  }

  lemma RewrittenWritable(todo: Todo, n: nat)
    requires n == |todo.commits| && forall i :: i in Flatten(todo) ==> ItemWritable(i)
    ensures InTodo(todo, Picks(n)) && AsItems(Rewritten(todo, Picks(n))) == Flatten(todo)
    ensures forall o :: o in Rewritten(todo, Picks(n)) ==> Writable(o)
  {
    PicksWalk(todo, n);
    var w := Walked(todo, Picks(n));
    assert todo.commits[..n] == todo.commits;
    assert w.out + Flush(w.pending) + [] == w.out + Flush(w.pending);
    PicksAct(todo, n);
    forall o | o in Rewritten(todo, Picks(n)) ensures Writable(o) {
      var k :| 0 <= k < |Rewritten(todo, Picks(n))| && Rewritten(todo, Picks(n))[k] == o;
      assert AsItems(Rewritten(todo, Picks(n)))[k] == AsItem(o);
      assert AsItem(o) in Flatten(todo) && ItemWritable(AsItem(o));
    }
  }

  lemma {:induction false} PicksAct(todo: Todo, n: nat)
    requires n <= |todo.commits|
    ensures InTodo(todo, Picks(n)) && forall o :: o in Walked(todo, Picks(n)).out && o.Step? ==> o.action == "pick"
  {
    if n > 0 {
      PicksAct(todo, n - 1);
      assert Picks(n)[..n - 1] == Picks(n - 1) && Picks(n)[n - 1] == PlanStep("pick", n - 1);
    }
  }

  // Picking every commit in the todo's order gives a todo that reads back
  // with the same commits and refs, exactly when no line is taken for a
  // comment or loses a carriage return.
  lemma UnchangedReadsBack(text: string, commentChar: string, todo: Todo)
    requires var r := ReadItems(Lines(text), commentChar); r.Ok? && todo == Gather(r.value)
    ensures InTodo(todo, Picks(|todo.commits|))
    ensures var outs := Rewritten(todo, Picks(|todo.commits|));
      var again := ReadItems(Lines(WriteText(outs)), commentChar);
      again.Ok? && Gather(again.value) == todo <==> forall o :: o in outs ==> Survives(o, commentChar)
  {
    var items := ReadItems(Lines(text), commentChar).value;
    LinesKeep(text);
    ReadWritable(Lines(text), commentChar);
    FlattenGather(items);
    RewrittenWritable(todo, |todo.commits|);
    var outs := Rewritten(todo, Picks(|todo.commits|));
    TextReadsBack(outs, commentChar);
    var again := ReadItems(Lines(WriteText(outs)), commentChar);
    if again.Ok? {
      FlattenGather(again.value);
    }
    hide *;
  }

  // ----- the editors --------------------------------------------------------

  datatype Reason = NoTodo | BadLine(line: ReadError) | BadPlan(plan: PlanError)

  datatype Outcome = NoControl | Refused(reason: Reason) | Saved(todo: string)

  method RunSequenceEditor(plan: Option<seq<Entry>>, commentChar: string, todoText: Option<string>)
      returns (outcome: Outcome, ghost steps: seq<PlanStep>)
    ensures plan.None? ==> outcome == NoControl
    ensures plan.Some? && todoText.None? ==> outcome == Refused(NoTodo)
    ensures plan.Some? && todoText.Some? ==>
      match ReadItems(Lines(todoText.value), commentChar)
      case Err(e) => outcome == Refused(BadLine(e))
      case Ok(items) =>
        var todo := Gather(items);
        match outcome
        case Saved(text) =>
          && Matched(plan.value, todo.commits, steps) && StepsGoWith(plan.value, todo.commits, steps) && InTodo(todo, steps)
          && text == WriteText(Rewritten(todo, steps))
        case Refused(reason) => reason.BadPlan? && Refuses(plan.value, todo.commits, reason.plan)
        case NoControl => false
    // a plan that names the todo's commits one to one is saved
    ensures plan.Some? && todoText.Some? ==>
      var r := ReadItems(Lines(todoText.value), commentChar);
      r.Ok? && Actionable(plan.value) && OneToOne(plan.value, Gather(r.value).commits, true) ==> outcome.Saved?
  {
    steps := [];
    if plan.None? {
      return NoControl, [];
    }
    if todoText.None? {
      return Refused(NoTodo), [];
    }
    var todo := ReadTodo(todoText.value, commentChar);
    if todo.Err? {
      return Refused(BadLine(todo.error)), [];
    }
    var matched := Match(plan.value, todo.value.commits);
    match matched {
      case Err(e) => return Refused(BadPlan(e)), [];
      case Ok(found) =>
        var text := Rewrite(todo.value, found);
        return Saved(text), found;
    }
  }

  predicate InChain(plan: seq<Entry>, j: nat, i: nat) {
    j <= i < |plan| && forall k :: j <= k <= i ==> plan[k].Entry? && (IsFold(plan[k].action) || plan[k].action == "drop")
  }

  predicate HasSquashMessage(plan: seq<Entry>, j: nat) {
    j < |plan| && plan[j].Entry? && plan[j].action == "squash" && plan[j].message != ""
  }

  // The latest squash message of the chain that ends at entry i.
  method ChainMessage(plan: seq<Entry>, i: nat) returns (message: string)
    requires i < |plan| && Malformed !in plan && IsFold(plan[i].action)
    ensures message == "" ==> forall j :: InChain(plan, j, i) ==> !HasSquashMessage(plan, j)
    ensures message != "" ==> exists j: nat ::
      && InChain(plan, j, i) && HasSquashMessage(plan, j) && message == plan[j].message
      && forall k: nat :: j < k <= i ==> !HasSquashMessage(plan, k)
  {
    message := "";
    var k: nat := i + 1;
    while k > 0
      invariant k <= i + 1 && message == ""
      invariant k <= i ==> InChain(plan, k, i)
      invariant forall j: nat :: k <= j <= i ==> !HasSquashMessage(plan, j)
    {
      k := k - 1;
      assert plan[k] in plan;
      if plan[k].action == "squash" {
        message := plan[k].message;
        if message != "" {
          assert InChain(plan, k, i) && HasSquashMessage(plan, k);
          return;
        }
      } else if plan[k].action != "fixup" && plan[k].action != "drop" {
        return;
      }
    }
  }
}
