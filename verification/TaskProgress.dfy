/** The pool never gets stuck and loses nothing: its core workers stay, some
    worker can go on until all is at rest, and by then every task accepted has
    run once. */
module TaskProgress {
  import opened Arithmetic
  import opened Wrappers
  import opened TaskStrand
  import opened TaskPool

  // ----- the core workers stay ----------------------------------------------

  function CoreOf(workers: map<nat, Worker>): set<nat> {
    set w | w in workers && workers[w].core
  }

  lemma CoreSet(workers: map<nat, Worker>, w: nat, x: Worker)
    requires if w in workers then x.core == workers[w].core else !x.core
    ensures CoreOf(workers[w := x]) == CoreOf(workers)
  {
  }

  lemma CoreGone(workers: map<nat, Worker>, w: nat)
    requires w in workers && !workers[w].core
    ensures CoreOf(workers - {w}) == CoreOf(workers)
  {
  }

  lemma CoreTurn(s: State, step: Step)
    requires Enabled(s, step) && (step.Enter? || step.Spawn? || step.EndTask? || step.EndStrandTask?)
    ensures CoreOf(Do(s, step).workers) == CoreOf(s.workers) && Do(s, step).core == s.core
  {
    hide CoreOf;
    CoreSet(s.workers, step.w, Do(s, step).workers[step.w]);
  }

  lemma CoreJob(s: State, w: nat)
    ensures Enabled(s, Take(w)) ==> CoreOf(TakeStep(s, w).workers) == CoreOf(s.workers) && TakeStep(s, w).core == s.core
    ensures Enabled(s, DrainNext(w)) ==>
      CoreOf(DrainNextStep(s, w).workers) == CoreOf(s.workers) && DrainNextStep(s, w).core == s.core
  {
    hide CoreOf;
    if Enabled(s, Take(w)) { CoreSet(s.workers, w, TakeStep(s, w).workers[w]); }
    if Enabled(s, DrainNext(w)) { CoreSet(s.workers, w, DrainNextStep(s, w).workers[w]); }
  }

  lemma CoreStep(s: State, step: Step)
    requires Enabled(s, step)
    ensures CoreOf(Do(s, step).workers) == CoreOf(s.workers) && Do(s, step).core == s.core
  {
    match step
    case PostJob(_, _) =>
    case PostToStrand(_, _) =>
    case HandOver(_, _) =>
    case Retire(w) => CoreGone(s.workers, w);
    case Take(w) => CoreJob(s, w);
    case DrainNext(w) => CoreJob(s, w);
    case _ => CoreTurn(s, step);
    hide CoreOf, TakeStep, DrainNextStep;
  }

  lemma CoreFollows(s: State, t: State)
    requires Follows(s, t)
    ensures CoreOf(t.workers) == CoreOf(s.workers) && t.core == s.core
  {
    hide Do, Enabled, CoreOf;
    var step :| Enabled(s, step) && Do(s, step) == t;
    CoreStep(s, step);
  }

  // In every state of every run the workers the pool was constructed with are
  // there, at least one.
  lemma {:induction false} CoreRun(states: seq<State>, k: nat)
    requires IsRun(states) && k < |states|
    ensures |CoreOf(states[k].workers)| == states[k].core >= 1
  {
    if k == 0 {
      assert CoreOf(states[0].workers) == Ids(states[0].core);
    } else {
      CoreRun(states, k - 1);
      StepOf(states, k);
      hide *;
      CoreFollows(states[k - 1], states[k]);
    }
  }

  // ----- every task started ends once ---------------------------------------

  function Running(workers: map<nat, Worker>, task: nat): set<nat> {
    set w | w in workers && workers[w].Runs? && workers[w].task == task
  }

  function Started(s: State, task: nat): nat {
    multiset(s.interactive.started)[Plain(task)] + multiset(s.background.started)[Plain(task)]
  }

  // The task ended as often as it was started, but for the workers at it.
  ghost predicate Ends(s: State, task: nat) {
    Started(s, task) == s.done[task] + |Running(s.workers, task)|
  }

  lemma RunningSet(workers: map<nat, Worker>, w: nat, x: Worker, task: nat)
    requires w in workers
    ensures |Running(workers[w := x], task)|
      == |Running(workers, task)| - One(workers[w].Runs? && workers[w].task == task) + One(x.Runs? && x.task == task)
  {
    Moved(Running(workers, task), Running(workers[w := x], task), w);
  }

  lemma StartedMore(started: seq<Job>, job: Job, task: nat)
    ensures multiset(started + [job])[Plain(task)] == multiset(started)[Plain(task)] + One(job == Plain(task))
  {
  }

  lemma EndsTake(s: State, w: nat, task: nat)
    requires Enabled(s, Take(w)) && Ends(s, task)
    ensures Ends(TakeStep(s, w), task)
  {
    RunningSet(s.workers, w, TakeStep(s, w).workers[w], task);
    if s.interactive.jobs == [] {
      StartedMore(s.background.started, s.background.jobs[0], task);
    } else {
      StartedMore(s.interactive.started, s.interactive.jobs[0], task);
    }
    hide Running;
  }

  lemma EndsWorker(s: State, step: Step, task: nat)
    requires Enabled(s, step) && Ends(s, task) && (step.Enter? || step.EndTask? || step.DrainNext? || step.EndStrandTask?)
    ensures Ends(Do(s, step), task)
  {
    RunningSet(s.workers, step.w, Do(s, step).workers[step.w], task);
    hide Running;
  }

  // Steps no worker with a task of the pool's own takes part in.
  lemma EndsPost(s: State, step: Step, task: nat)
    requires Enabled(s, step) && Ends(s, task) && (step.PostJob? || step.PostToStrand? || step.HandOver?)
    ensures Ends(Do(s, step), task)
  {
    hide Running;
  }

  lemma EndsCrew(s: State, step: Step, task: nat)
    requires Enabled(s, step) && Ends(s, task) && (step.Spawn? || step.Retire?)
    ensures Ends(Do(s, step), task)
  {
    assert Running(Do(s, step).workers, task) == Running(s.workers, task);
  }

  lemma EndsStep(s: State, step: Step, task: nat)
    requires Enabled(s, step) && Ends(s, task)
    ensures Ends(Do(s, step), task)
  {
    match step
    case Take(w) => EndsTake(s, w, task);
    case PostJob(_, _) => EndsPost(s, step, task);
    case PostToStrand(_, _) => EndsPost(s, step, task);
    case HandOver(_, _) => EndsPost(s, step, task);
    case Spawn(_) => EndsCrew(s, step, task);
    case Retire(_) => EndsCrew(s, step, task);
    case _ => EndsWorker(s, step, task);
    hide TakeStep, Ends;
  }

  lemma EndsFollows(s: State, t: State, task: nat)
    requires Follows(s, t) && Ends(s, task)
    ensures Ends(t, task)
  {
    hide Do, Enabled, Ends;
    var step :| Enabled(s, step) && Do(s, step) == t;
    EndsStep(s, step, task);
  }

  lemma {:induction false} EndsRun(states: seq<State>, k: nat, task: nat)
    requires IsRun(states) && k < |states|
    ensures Ends(states[k], task)
  {
    if k == 0 {
      assert Running(states[0].workers, task) == {};
    } else {
      EndsRun(states, k - 1, task);
      StepOf(states, k);
      hide *;
      EndsFollows(states[k - 1], states[k], task);
    }
  }

  // ----- something can always be done ---------------------------------------

  // Nothing is queued or on its way, and every worker waits.
  ghost predicate AtRest(s: State) {
    && s.handing == multiset{} && s.interactive.jobs == [] && s.background.jobs == []
    && forall w :: w in s.workers ==> s.workers[w].Waiting?
  }

  // Steps that neither post, add a worker nor send one away.
  predicate Advances(step: Step) {
    !step.PostJob? && !step.PostToStrand? && !step.Spawn? && !step.Retire?
  }

  lemma WorkerNext(s: State, w: nat) returns (step: Step)
    requires Fits(s) && w in s.workers && !s.workers[w].Waiting?
    ensures Enabled(s, step) && Advances(step)
  {
    match s.workers[w]
    case Entering(_) => step := Enter(w);
    case Runs(_, _) => step := EndTask(w);
    case Drains(_, st, current) =>
      assert StrandFits(s, st);
      OneDrainer(s, st, w);
      step := if current.Some? then EndStrandTask(w) else DrainNext(w);
  }

  // The step that is next while anything is left to do.
  lemma NextStep(s: State) returns (step: Step)
    requires Fits(s) && CoreOf(s.workers) != {} && !AtRest(s)
    ensures Enabled(s, step) && Advances(step)
  {
    if s.handing != multiset{} {
      var st :| st in s.handing;
      step := HandOver(st, Interactive);
    } else if w :| w in s.workers && !s.workers[w].Waiting? {
      step := WorkerNext(s, w);
    } else {
      var w :| w in CoreOf(s.workers);
      assert w in Idlers(s.workers);
      step := Take(w);
    }
  }

  // In every run the pool can go on without help exactly while it is not at
  // rest.
  lemma StopsAtRest(states: seq<State>, k: nat)
    requires IsRun(states) && k < |states|
    ensures AtRest(states[k]) <==> !exists step :: Enabled(states[k], step) && Advances(step)
  {
    FitsRun(states, k);
    CoreRun(states, k);
    if !AtRest(states[k]) {
      var step := NextStep(states[k]);
    }
  }

  // ----- and it comes to an end ---------------------------------------------

  function Level(w: Worker): nat {
    match w
    case Waiting(_) => 0
    case Entering(_) => 1
    case Runs(_, _) => 2
    case Drains(_, _, current) => if current.None? then 2 else 3
  }

  function AtLevel(workers: map<nat, Worker>, p: nat): set<nat> {
    set w | w in workers && Level(workers[w]) >= p
  }

  function WorkerWork(workers: map<nat, Worker>): nat {
    |AtLevel(workers, 1)| + |AtLevel(workers, 2)| + |AtLevel(workers, 3)|
  }

  // The places of the queued strand tasks.
  function Queued(strands: map<nat, Lane>): set<(nat, nat)> {
    set st, i | st in strands && 0 <= i < |strands[st].queue| :: (st, i)
  }

  // Steps left until all is at rest, at most.
  function Work(s: State): nat {
    2 * |Queued(s.strands)| + 4 * |s.handing| + 3 * |s.interactive.jobs| + 3 * |s.background.jobs| + WorkerWork(s.workers)
  }

  lemma AtLevelSet(workers: map<nat, Worker>, w: nat, x: Worker, p: nat)
    requires w in workers
    ensures |AtLevel(workers[w := x], p)| == |AtLevel(workers, p)| - One(Level(workers[w]) >= p) + One(Level(x) >= p)
  {
    Moved(AtLevel(workers, p), AtLevel(workers[w := x], p), w);
  }

  lemma WorkerMoved(workers: map<nat, Worker>, w: nat, x: Worker)
    requires w in workers
    ensures WorkerWork(workers[w := x]) == WorkerWork(workers) - Level(workers[w]) + Level(x)
  {
    AtLevelSet(workers, w, x, 1);
    AtLevelSet(workers, w, x, 2);
    AtLevelSet(workers, w, x, 3);
    hide AtLevel;
  }

  lemma QueuedTaken(strands: map<nat, Lane>, st: nat)
    requires st in strands
    ensures |Queued(strands[st := Taken(strands[st])])| == |Queued(strands)| - One(strands[st].queue != [])
  {
    var lane, after := strands[st], strands[st := Taken(strands[st])];
    if lane.queue == [] {
      assert Queued(after) == Queued(strands);
    } else {
      assert (st, |lane.queue| - 1) in Queued(strands);
      assert Queued(after) == Queued(strands) - {(st, |lane.queue| - 1)};
    }
  }

  lemma WorkTurn(s: State, step: Step)
    requires Enabled(s, step) && (step.Enter? || step.EndTask? || step.EndStrandTask?)
    ensures Work(Do(s, step)) < Work(s)
  {
    WorkerMoved(s.workers, step.w, Do(s, step).workers[step.w]);
    hide WorkerWork, Queued;
  }

  lemma WorkTake(s: State, w: nat)
    requires Enabled(s, Take(w))
    ensures Work(TakeStep(s, w)) < Work(s)
  {
    WorkerMoved(s.workers, w, TakeStep(s, w).workers[w]);
    hide WorkerWork, Queued;
  }

  lemma WorkDrain(s: State, w: nat)
    requires Enabled(s, DrainNext(w))
    ensures Work(DrainNextStep(s, w)) < Work(s)
  {
    QueuedTaken(s.strands, s.workers[w].strand);
    WorkerMoved(s.workers, w, DrainNextStep(s, w).workers[w]);
    hide WorkerWork, Queued;
  }

  lemma WorkHandOver(s: State, st: nat, priority: Priority)
    requires Enabled(s, HandOver(st, priority))
    ensures Work(Do(s, HandOver(st, priority))) < Work(s)
  {
    hide WorkerWork, Queued;
  }

  // Every advancing step leaves less work.
  lemma WorkDecreases(s: State, step: Step)
    requires Enabled(s, step) && Advances(step)
    ensures Work(Do(s, step)) < Work(s)
  {
    match step
    case HandOver(st, priority) => WorkHandOver(s, st, priority);
    case Take(w) => WorkTake(s, w);
    case DrainNext(w) => WorkDrain(s, w);
    case _ => WorkTurn(s, step);
    hide Work, TakeStep, DrainNextStep, Accept;
  }

  // How often a task of the pool's own was accepted.
  function Accepted(s: State, task: nat): nat {
    multiset(s.interactive.accepted)[Plain(task)] + multiset(s.background.accepted)[Plain(task)]
  }

  lemma NoTaskOver(s: State, priority: Priority, st: nat, task: nat)
    ensures Accepted(Accept(s, priority, Drain(st)), task) == Accepted(s, task)
  {
    StartedMore(s.interactive.accepted, Drain(st), task);
    StartedMore(s.background.accepted, Drain(st), task);
  }

  // An advancing step accepts no task.
  lemma NothingPosted(s: State, step: Step, task: nat)
    requires Enabled(s, step) && Advances(step)
    ensures Do(s, step).posted == s.posted && Accepted(Do(s, step), task) == Accepted(s, task)
  {
    match step
    case HandOver(st, priority) => NoTaskOver(s, priority, st, task);
    case Take(w) => TakeDrains(s, w, 0);
    case DrainNext(w) => DrainKeeps(s, w);
    case _ =>
    hide DrainNextStep, DrainJobs;
  }

  ghost predicate Advanced(s: State, t: State) {
    exists step :: Enabled(s, step) && Advances(step) && Do(s, step) == t
  }

  lemma RunExtends(states: seq<State>, next: State)
    requires IsRun(states) && Advanced(states[|states| - 1], next)
    ensures IsRun(states + [next])
  {
    var longer := states + [next];
    forall k | 0 < k < |longer| ensures Follows(longer[k - 1], longer[k]) {
      if k < |states| { assert Follows(states[k - 1], states[k]); }
    }
  }

  // The same tasks have been posted.
  ghost predicate SamePosted(s: State, t: State) {
    t.posted == s.posted && forall task: nat :: Accepted(t, task) == Accepted(s, task)
  }

  lemma OneMore(states: seq<State>) returns (next: State)
    requires IsRun(states) && !AtRest(states[|states| - 1])
    ensures IsRun(states + [next]) && Advanced(states[|states| - 1], next)
    ensures SamePosted(states[|states| - 1], next) && Work(next) < Work(states[|states| - 1])
  {
    hide Work, Do, Enabled, Follows, AtRest, Accepted;
    var s := states[|states| - 1];
    FitsRun(states, |states| - 1);
    CoreRun(states, |states| - 1);
    var step := NextStep(s);
    WorkDecreases(s, step);
    next := Do(s, step);
    NothingPosted(s, step, 0);
    forall task: nat ensures Accepted(next, task) == Accepted(s, task) {
      NothingPosted(s, step, task);
    }
    RunExtends(states, next);
  }

  // Every run goes on, without another task or worker and without losing one,
  // until all is at rest, in at most Work more steps.
  lemma {:induction false} RunsDry(states: seq<State>) returns (longer: seq<State>)
    requires IsRun(states)
    ensures IsRun(longer) && states <= longer
    ensures forall k :: |states| <= k < |longer| ==> Advanced(longer[k - 1], longer[k])
    ensures var s, t := states[|states| - 1], longer[|longer| - 1];
      AtRest(t) && SamePosted(s, t) && |longer| <= |states| + Work(s)
    decreases Work(states[|states| - 1])
  {
    hide Work, AtRest, Advanced, Accepted, Follows;
    longer := states;
    if !AtRest(states[|states| - 1]) {
      var next := OneMore(states);
      longer := RunsDry(states + [next]);
      assert longer[|states|] == next;
    }
  }

  // Once all is at rest every job accepted was started, in order; every task
  // of the pool's own ended as often as it was accepted; and every task posted
  // to a strand ran, in post order.
  lemma AllHasRun(states: seq<State>, k: nat)
    requires IsRun(states) && k < |states| && AtRest(states[k])
    ensures var s := states[k];
      && s.interactive.started == s.interactive.accepted && s.background.started == s.background.accepted
      && (forall task: nat :: s.done[task] == Accepted(s, task))
      && forall st :: st in s.strands ==> st in s.posted && st in s.ran && s.ran[st] == s.posted[st] && s.strands[st] == IDLE
  {
    var s := states[k];
    FitsRun(states, k);
    forall task: nat ensures s.done[task] == Accepted(s, task) {
      EndsRun(states, k, task);
      assert Running(s.workers, task) == {};
    }
    forall st | st in s.strands ensures s.ran[st] == s.posted[st] && s.strands[st] == IDLE {
      assert StrandFits(s, st) && Draining(s.workers, st) == {};
    }
  }

  // So every run can be completed to one in which exactly the tasks posted so
  // far have all run.
  lemma EveryTaskRuns(states: seq<State>) returns (longer: seq<State>)
    requires IsRun(states)
    ensures IsRun(longer) && states <= longer
    ensures var s, t := states[|states| - 1], longer[|longer| - 1];
      && t.ran == t.posted == s.posted && (forall task: nat :: t.done[task] == Accepted(s, task))
      && t.interactive.started == t.interactive.accepted && t.background.started == t.background.accepted
  {
    longer := RunsDry(states);
    AllHasRun(longer, |longer| - 1);
    FitsRun(longer, |longer| - 1);
    hide AtRest, Accepted, IsRun, Kept;
    var t := longer[|longer| - 1];
    assert t.ran == t.posted;
  }
}
