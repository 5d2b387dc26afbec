/** The pool of engine/src/util/task_pool.cpp before shutdown, with strands on
    top, as a transition system: one step per locked section. */
module TaskPool {
  import opened Arithmetic
  import opened TaskStrand
  import opened Wrappers

  datatype Priority = Interactive | Background

  // What the pool's queues hold: a task of its own, or a strand's drain.
  datatype Job = Plain(task: nat) | Drain(strand: nat)

  // One of the pool's two queues, with what it accepted and handed out so far.
  datatype Queue = Queue(jobs: seq<Job>, accepted: seq<Job>, started: seq<Job>)

  function Added(q: Queue, job: Job): Queue {
    Queue(q.jobs + [job], q.accepted + [job], q.started)
  }

  function Popped(q: Queue): Queue
    requires q.jobs != []
  {
    Queue(q.jobs[1..], q.accepted, q.started + [q.jobs[0]])
  }

  // A worker: before the lock, waiting under it, or running a job. One
  // draining a strand holds the task it runs, if any.
  datatype Worker =
    | Entering(core: bool)
    | Waiting(core: bool)
    | Runs(core: bool, task: nat)
    | Drains(core: bool, strand: nat, current: Option<nat>)

  datatype State = State(
    core: nat, max: nat,
    interactive: Queue, background: Queue,
    workers: map<nat, Worker>,
    live: nat, idle: nat,
    strands: map<nat, Lane>,
    handing: multiset<nat>,     // strands whose drain job is about to be posted
    // History: the tasks each strand accepted and finished, and the pool's own
    // tasks that finished.
    posted: map<nat, seq<nat>>, ran: map<nat, seq<nat>>, done: multiset<nat>)

  datatype Step =
    | PostJob(priority: Priority, task: nat)
    | PostToStrand(strand: nat, task: nat)
    | HandOver(strand: nat, priority: Priority)
    | Enter(w: nat)
    | Take(w: nat)
    | Retire(w: nat)
    | Spawn(w: nat)
    | EndTask(w: nat)
    | DrainNext(w: nat)
    | EndStrandTask(w: nat)

  function Ids(n: nat): (ids: set<nat>)
    ensures |ids| == n && forall w :: w in ids ==> w < n
  {
    if n == 0 then {} else Ids(n - 1) + {n - 1}
  }

  // The pool as constructed: at least one core worker, all about to wait.
  ghost function Initial(threads: nat, maxThreads: nat, strands: set<nat>): State {
    var core := Max(threads, 1);
    State(core, Max(maxThreads, threads), Queue([], [], []), Queue([], [], []),
          map w | w in Ids(core) :: Entering(true), core, 0,
          map st | st in strands :: IDLE, multiset{},
          map st | st in strands :: [], map st | st in strands :: [], multiset{})
  }

  predicate Shaped(s: State) {
    && s.posted.Keys == s.strands.Keys && s.ran.Keys == s.strands.Keys
  }

  predicate Enabled(s: State, step: Step) {
    && Shaped(s)
    && match step
       case PostJob(_, _) => true
       case PostToStrand(st, _) => st in s.strands
       case HandOver(st, _) => st in s.handing
       case Enter(w) => w in s.workers && s.workers[w].Entering?
       case Take(w) => w in s.workers && s.workers[w].Waiting? && s.idle > 0 && (s.interactive.jobs != [] || s.background.jobs != [])
       case Retire(w) => w in s.workers && s.workers[w].Waiting? && !s.workers[w].core && s.idle > 0 && s.live > 0
           && s.interactive.jobs == [] && s.background.jobs == []
       case Spawn(w) => w !in s.workers && (s.interactive.jobs != [] || s.background.jobs != []) && s.idle == 0 && s.live < s.max
       case EndTask(w) => w in s.workers && s.workers[w].Runs?
       case DrainNext(w) => w in s.workers && s.workers[w].Drains? && s.workers[w].current == None && s.workers[w].strand in s.strands
       case EndStrandTask(w) => w in s.workers && s.workers[w].Drains? && s.workers[w].current.Some? && s.workers[w].strand in s.strands
  }

  function Accept(s: State, priority: Priority, job: Job): State {
    if priority == Interactive then s.(interactive := Added(s.interactive, job))
    else s.(background := Added(s.background, job))
  }

  function RunJob(core: bool, job: Job): Worker {
    match job case Plain(task) => Runs(core, task) case Drain(st) => Drains(core, st, None)
  }

  // Interactive jobs go first; within a queue, the oldest.
  function NextJob(s: State): Job
    requires s.interactive.jobs != [] || s.background.jobs != []
  {
    if s.interactive.jobs == [] then s.background.jobs[0] else s.interactive.jobs[0]
  }

  function TakeStep(s: State, w: nat): State
    requires Enabled(s, Take(w))
  {
    var t := s.(idle := s.idle - 1, workers := s.workers[w := RunJob(s.workers[w].core, NextJob(s))]);
    if s.interactive.jobs == [] then t.(background := Popped(s.background)) else t.(interactive := Popped(s.interactive))
  }

  function StrandPostStep(s: State, st: nat, task: nat): State
    requires Enabled(s, PostToStrand(st, task))
  {
    s.(strands := s.strands[st := Pushed(s.strands[st], task)],
       handing := if NeedsDrain(s.strands[st]) then s.handing + multiset{st} else s.handing,
       posted := s.posted[st := s.posted[st] + [task]])
  }

  function DrainNextStep(s: State, w: nat): State
    requires Enabled(s, DrainNext(w))
  {
    var st := s.workers[w].strand;
    var lane := s.strands[st];
    var t := s.(strands := s.strands[st := Taken(lane)]);
    if NextTask(lane).None? then t.(workers := s.workers[w := Entering(s.workers[w].core)])
    else t.(workers := s.workers[w := Drains(s.workers[w].core, st, NextTask(lane))])
  }

  function Do(s: State, step: Step): State
    requires Enabled(s, step)
  {
    match step
    case PostJob(priority, task) => Accept(s, priority, Plain(task))
    case PostToStrand(st, task) => StrandPostStep(s, st, task)
    case HandOver(st, priority) => Accept(s, priority, Drain(st)).(handing := s.handing - multiset{st})
    case Enter(w) => s.(workers := s.workers[w := Waiting(s.workers[w].core)], idle := s.idle + 1)
    case Take(w) => TakeStep(s, w)
    case Retire(w) => s.(workers := s.workers - {w}, idle := s.idle - 1, live := s.live - 1)
    case Spawn(w) => s.(workers := s.workers[w := Entering(false)], live := s.live + 1)
    // A task that throws ends like one that returns.
    case EndTask(w) => s.(workers := s.workers[w := Entering(s.workers[w].core)], done := s.done + multiset{s.workers[w].task})
    case DrainNext(w) => DrainNextStep(s, w)
    case EndStrandTask(w) =>
      var st := s.workers[w].strand;
      s.(workers := s.workers[w := s.workers[w].(current := None)], ran := s.ran[st := s.ran[st] + [s.workers[w].current.value]])
  }

  ghost predicate IsRun(states: seq<State>) {
    && states != [] && (exists threads, maxThreads, strands :: states[0] == Initial(threads, maxThreads, strands))
    && forall k :: 0 < k < |states| ==> Follows(states[k - 1], states[k])
  }

  ghost predicate Follows(s: State, t: State) {
    exists step :: Enabled(s, step) && Do(s, step) == t
  }

  // ----- counting workers and drain jobs ------------------------------------

  function Draining(workers: map<nat, Worker>, st: nat): set<nat> {
    set w | w in workers && workers[w].Drains? && workers[w].strand == st
  }

  function Idlers(workers: map<nat, Worker>): set<nat> {
    set w | w in workers && workers[w].Waiting?
  }

  function DrainJobs(jobs: seq<Job>, st: nat): nat {
    if jobs == [] then 0 else One(jobs[0] == Drain(st)) + DrainJobs(jobs[1..], st)
  }

  // Drain jobs of a strand that are about to be posted, queued or running.
  function DrainsOf(s: State, st: nat): nat {
    s.handing[st] + DrainJobs(s.interactive.jobs, st) + DrainJobs(s.background.jobs, st) + |Draining(s.workers, st)|
  }

  // What the worker draining the strand is running.
  ghost predicate RunsNow(workers: map<nat, Worker>, st: nat, now: seq<nat>) {
    if Draining(workers, st) == {} then now == []
    else forall w :: w in Draining(workers, st) ==>
      now == if workers[w].current.Some? then [workers[w].current.value] else []
  }

  // ----- the invariant ------------------------------------------------------

  ghost predicate Counted(s: State) {
    s.idle == |Idlers(s.workers)| && s.live == |s.workers| <= Max(s.core, s.max)
  }

  // Every task posted to the strand has run, is running or is queued, in
  // post order.
  ghost predicate Kept(s: State, st: nat)
    requires st in s.strands && st in s.posted && st in s.ran
  {
    exists now :: RunsNow(s.workers, st, now) && s.posted[st] == s.ran[st] + now + s.strands[st].queue
  }

  ghost predicate StrandFits(s: State, st: nat) {
    && DrainsOf(s, st) == One(st in s.strands && s.strands[st].draining)
    && (st in s.strands ==> st in s.posted && st in s.ran && Kept(s, st))
    && (st in s.strands && s.strands[st].queue != [] ==> s.strands[st].draining)
  }

  ghost predicate QueueFits(q: Queue) {
    q.accepted == q.started + q.jobs
  }

  ghost predicate Fits(s: State) {
    Shaped(s) && Counted(s) && QueueFits(s.interactive) && QueueFits(s.background) && forall st: nat :: StrandFits(s, st)
  }

  // ----- how the counts move ------------------------------------------------

  lemma {:induction false} DrainJobsPush(jobs: seq<Job>, job: Job, st: nat)
    ensures DrainJobs(jobs + [job], st) == DrainJobs(jobs, st) + One(job == Drain(st))
  {
    if jobs == [] {
      assert jobs + [job] == [job];
    } else {
      DrainJobsPush(jobs[1..], job, st);
      assert (jobs + [job])[1..] == jobs[1..] + [job];
    }
  }

  predicate DrainsStrand(w: Worker, st: nat) { w.Drains? && w.strand == st }

  lemma Moved(before: set<nat>, after: set<nat>, w: nat)
    requires after - {w} == before - {w}
    ensures |after| == |before| - One(w in before) + One(w in after)
  {
    assert |after - {w}| == |after| - One(w in after);
    assert |before - {w}| == |before| - One(w in before);
  }

  lemma WorkerSet(workers: map<nat, Worker>, w: nat, x: Worker, st: nat)
    ensures
      var was := w in workers;
      && |Draining(workers[w := x], st)| == |Draining(workers, st)| - One(was && DrainsStrand(workers[w], st)) + One(DrainsStrand(x, st))
      && |Idlers(workers[w := x])| == |Idlers(workers)| - One(was && workers[w].Waiting?) + One(x.Waiting?)
      && |workers[w := x]| == |workers| + One(!was)
  {
    var after := workers[w := x];
    Moved(Draining(workers, st), Draining(after, st), w);
    Moved(Idlers(workers), Idlers(after), w);
    Moved(workers.Keys, after.Keys, w);
    assert |after| == |after.Keys| && |workers| == |workers.Keys|;
  }

  lemma WorkerGone(workers: map<nat, Worker>, w: nat, st: nat)
    requires w in workers && workers[w].Waiting?
    ensures |Draining(workers - {w}, st)| == |Draining(workers, st)| && |Idlers(workers - {w})| == |Idlers(workers)| - 1
    ensures |workers - {w}| == |workers| - 1
  {
    assert Draining(workers - {w}, st) == Draining(workers, st);
    assert Idlers(workers - {w}) == Idlers(workers) - {w};
    assert (workers - {w}).Keys == workers.Keys - {w};
  }

  // Steps that only change which job a worker runs.
  lemma CountedJob(s: State, step: Step)
    requires Enabled(s, step) && Counted(s) && (step.EndTask? || step.DrainNext? || step.EndStrandTask?)
    ensures Counted(Do(s, step))
  {
    WorkerSet(s.workers, step.w, Do(s, step).workers[step.w], 0);
  }

  // Steps that change how many workers wait or live.
  lemma CountedTurn(s: State, step: Step)
    requires Enabled(s, step) && Counted(s) && (step.Enter? || step.Take? || step.Retire? || step.Spawn?)
    ensures Counted(Do(s, step))
  {
    if step.Retire? {
      WorkerGone(s.workers, step.w, 0);
    } else {
      WorkerSet(s.workers, step.w, Do(s, step).workers[step.w], 0);
    }
  }

  lemma CountedStep(s: State, step: Step)
    requires Enabled(s, step) && Counted(s)
    ensures Counted(Do(s, step))
  {
    if step.EndTask? || step.DrainNext? || step.EndStrandTask? {
      CountedJob(s, step);
    } else if step.Enter? || step.Take? || step.Retire? || step.Spawn? {
      CountedTurn(s, step);
    }
    hide TakeStep, DrainNextStep;
  }

  lemma QueuesStep(s: State, step: Step)
    requires Enabled(s, step) && QueueFits(s.interactive) && QueueFits(s.background)
    ensures QueueFits(Do(s, step).interactive) && QueueFits(Do(s, step).background)
  {
    hide DrainNextStep, StrandPostStep;
    if step.Take? {
      QueuePopped(s, step.w);
      hide TakeStep;
    } else if step.DrainNext? {
      QueueKeptByDrain(s, step.w);
    } else if step.PostToStrand? {
      QueueKeptByPost(s, step.strand, step.task);
    }
  }

  lemma QueuePopped(s: State, w: nat)
    requires Enabled(s, Take(w)) && QueueFits(s.interactive) && QueueFits(s.background)
    ensures QueueFits(TakeStep(s, w).interactive) && QueueFits(TakeStep(s, w).background)
  {
  }

  lemma QueueKeptByDrain(s: State, w: nat)
    requires Enabled(s, DrainNext(w))
    ensures DrainNextStep(s, w).interactive == s.interactive && DrainNextStep(s, w).background == s.background
  {
  }

  lemma QueueKeptByPost(s: State, st: nat, task: nat)
    requires Enabled(s, PostToStrand(st, task))
    ensures StrandPostStep(s, st, task).interactive == s.interactive && StrandPostStep(s, st, task).background == s.background
  {
  }

  // ----- one strand ---------------------------------------------------------

  lemma OneDrainer(s: State, st: nat, w: nat)
    requires StrandFits(s, st) && w in s.workers && DrainsStrand(s.workers[w], st)
    ensures Draining(s.workers, st) == {w} && st in s.strands && s.strands[st].draining
    ensures s.handing[st] == DrainJobs(s.interactive.jobs, st) == DrainJobs(s.background.jobs, st) == 0
  {
    assert w in Draining(s.workers, st);
    assert Draining(s.workers, st) - {w} == {} by {
      assert |Draining(s.workers, st) - {w}| == |Draining(s.workers, st)| - 1;
    }
  }

  lemma NoDrainer(s: State, st: nat)
    requires StrandFits(s, st) && s.handing[st] + DrainJobs(s.interactive.jobs, st) + DrainJobs(s.background.jobs, st) > 0
    ensures Draining(s.workers, st) == {}
  {
  }

  // Steps that post keep the strand's tasks in order.
  lemma AcceptFits(s: State, priority: Priority, job: Job, st: nat)
    ensures DrainsOf(Accept(s, priority, job), st) == DrainsOf(s, st) + One(job == Drain(st))
    ensures Accept(s, priority, job).strands == s.strands && Accept(s, priority, job).workers == s.workers
    ensures Accept(s, priority, job).posted == s.posted && Accept(s, priority, job).ran == s.ran
    ensures Accept(s, priority, job).handing == s.handing
  {
    DrainJobsPush(s.interactive.jobs, job, st);
    DrainJobsPush(s.background.jobs, job, st);
    hide DrainJobs, Draining;
  }

  // Nothing about the strand has moved.
  lemma SameFits(s: State, t: State, st: nat)
    requires StrandFits(s, st) && DrainsOf(t, st) == DrainsOf(s, st)
    requires t.strands == s.strands && t.workers == s.workers && t.posted == s.posted && t.ran == s.ran
    ensures StrandFits(t, st)
  {
    hide DrainsOf, RunsNow;
  }

  lemma HandOverFits(s: State, d: nat, priority: Priority, st: nat)
    requires Enabled(s, HandOver(d, priority)) && StrandFits(s, st)
    ensures StrandFits(Do(s, HandOver(d, priority)), st)
  {
    AcceptFits(s, priority, Drain(d), st);
    var t := Accept(s, priority, Drain(d));
    hide Accept;
    SameFits(s, t.(handing := s.handing - multiset{d}), st);
  }

  lemma StrandPostFits(s: State, d: nat, task: nat, st: nat)
    requires Enabled(s, PostToStrand(d, task)) && StrandFits(s, st)
    ensures StrandFits(StrandPostStep(s, d, task), st)
  {
    var t := StrandPostStep(s, d, task);
    if st in s.strands {
      var now :| RunsNow(s.workers, st, now) && s.posted[st] == s.ran[st] + now + s.strands[st].queue;
      assert RunsNow(t.workers, st, now);
      assert s.ran[st] + now + (s.strands[st].queue + [task]) == s.posted[st] + [task];
    }
    hide DrainJobs, Draining, RunsNow;
  }

  lemma PostFits(s: State, step: Step, st: nat)
    requires Enabled(s, step) && StrandFits(s, st) && (step.PostJob? || step.PostToStrand? || step.HandOver?)
    ensures StrandFits(Do(s, step), st)
  {
    match step
    case PostJob(priority, task) =>
      AcceptFits(s, priority, Plain(task), st);
      SameFits(s, Accept(s, priority, Plain(task)), st);
    case HandOver(d, priority) => HandOverFits(s, d, priority, st);
    case PostToStrand(d, task) => StrandPostFits(s, d, task, st);
    hide Accept, StrandPostStep, StrandFits;
  }

  // Steps of a worker that starts, waits or leaves.
  lemma IdleFits(s: State, step: Step, st: nat)
    requires Enabled(s, step) && StrandFits(s, st) && (step.Enter? || step.Retire? || step.Spawn? || step.EndTask?)
    ensures StrandFits(Do(s, step), st)
  {
    var t := Do(s, step);
    assert Draining(t.workers, st) == Draining(s.workers, st);
    assert forall w :: w in Draining(s.workers, st) ==> t.workers[w] == s.workers[w];
    assert DrainsOf(t, st) == DrainsOf(s, st);
    ElsewhereFits(s, t, st);
  }

  lemma TakeDrains(s: State, w: nat, st: nat)
    requires Enabled(s, Take(w))
    ensures var t := TakeStep(s, w);
      && DrainJobs(t.interactive.jobs, st) + DrainJobs(t.background.jobs, st) + One(NextJob(s) == Drain(st))
        == DrainJobs(s.interactive.jobs, st) + DrainJobs(s.background.jobs, st)
      && t.workers == s.workers[w := RunJob(s.workers[w].core, NextJob(s))]
      && t.strands == s.strands && t.posted == s.posted && t.ran == s.ran && t.handing == s.handing
  {
  }

  lemma TakeFits(s: State, w: nat, st: nat)
    requires Enabled(s, Take(w)) && StrandFits(s, st)
    ensures StrandFits(TakeStep(s, w), st)
  {
    var t := TakeStep(s, w);
    TakeDrains(s, w, st);
    hide TakeStep, DrainJobs;
    if NextJob(s) == Drain(st) {
      NoDrainer(s, st);
      assert Draining(t.workers, st) == {w};
      assert t.workers[w].current == None;
      DrainerFits(s, t, st);
    } else {
      assert Draining(t.workers, st) == Draining(s.workers, st);
      ElsewhereFits(s, t, st);
    }
  }

  // A worker has just taken up the strand's drain job.
  lemma DrainerFits(s: State, t: State, st: nat)
    requires StrandFits(s, st) && DrainsOf(t, st) == DrainsOf(s, st) && Draining(s.workers, st) == {}
    requires forall w :: w in Draining(t.workers, st) ==> t.workers[w].current == None
    requires t.strands == s.strands && t.posted == s.posted && t.ran == s.ran
    ensures StrandFits(t, st)
  {
    if st in s.strands {
      assert RunsNow(t.workers, st, []);
      assert s.posted[st] == s.ran[st] + [] + s.strands[st].queue;
    }
    hide DrainsOf;
  }

  lemma DrainKeeps(s: State, w: nat)
    requires Enabled(s, DrainNext(w))
    ensures var t, st := DrainNextStep(s, w), s.workers[w].strand;
      && t.interactive == s.interactive && t.background == s.background && t.handing == s.handing
      && t.posted == s.posted && t.ran == s.ran && t.strands == s.strands[st := Taken(s.strands[st])]
      && t.workers == s.workers[w := if NextTask(s.strands[st]).None? then Entering(s.workers[w].core)
                                     else Drains(s.workers[w].core, st, NextTask(s.strands[st]))]
  {
  }

  lemma OwnDrainFits(s: State, w: nat, st: nat)
    requires Enabled(s, DrainNext(w)) && StrandFits(s, st) && s.workers[w].strand == st
    ensures StrandFits(DrainNextStep(s, w), st)
  {
    var t := DrainNextStep(s, w);
    DrainKeeps(s, w);
    hide DrainNextStep, DrainJobs;
    OneDrainer(s, st, w);
    var lane := s.strands[st];
    if lane.queue == [] {
      assert forall x :: x in Draining(t.workers, st) ==> x in Draining(s.workers, st) && x != w;
      assert Draining(t.workers, st) == {} && RunsNow(t.workers, st, []);
    } else {
      assert forall x :: x in Draining(t.workers, st) <==> x in Draining(s.workers, st);
      assert Draining(t.workers, st) == {w} && RunsNow(t.workers, st, [lane.queue[0]]);
    }
    OneTaken(s, w, st);
  }

  lemma OneTaken(s: State, w: nat, st: nat)
    requires StrandFits(s, st) && w in s.workers && DrainsStrand(s.workers[w], st) && s.workers[w].current == None && st in s.strands
    ensures var queue := s.strands[st].queue;
      s.posted[st] == s.ran[st] + (if queue == [] then [] else [queue[0]]) + Taken(s.strands[st]).queue
  {
    var now :| RunsNow(s.workers, st, now) && s.posted[st] == s.ran[st] + now + s.strands[st].queue;
    assert w in Draining(s.workers, st) && now == [];
    hide DrainsOf, RunsNow;
  }

  lemma DrainFits(s: State, w: nat, st: nat)
    requires Enabled(s, DrainNext(w)) && StrandFits(s, st)
    ensures StrandFits(DrainNextStep(s, w), st)
  {
    if s.workers[w].strand == st {
      OwnDrainFits(s, w, st);
      hide DrainNextStep;
    } else {
      var t := DrainNextStep(s, w);
      DrainKeeps(s, w);
      hide DrainNextStep, DrainJobs;
      assert Draining(t.workers, st) == Draining(s.workers, st);
      ElsewhereFits(s, t, st);
    }
  }

  lemma ElsewhereFits(s: State, t: State, st: nat)
    requires StrandFits(s, st) && DrainsOf(t, st) == DrainsOf(s, st) && Draining(t.workers, st) == Draining(s.workers, st)
    requires forall w :: w in Draining(s.workers, st) ==> t.workers[w] == s.workers[w]
    requires t.posted == s.posted && t.ran == s.ran
    requires (st in t.strands <==> st in s.strands) && (st in s.strands ==> t.strands[st] == s.strands[st])
    ensures StrandFits(t, st)
  {
    if st in s.strands {
      var now :| RunsNow(s.workers, st, now) && s.posted[st] == s.ran[st] + now + s.strands[st].queue;
      assert RunsNow(t.workers, st, now);
    }
    hide DrainsOf;
  }

  lemma EndFits(s: State, w: nat, st: nat)
    requires Enabled(s, EndStrandTask(w)) && StrandFits(s, st)
    ensures StrandFits(Do(s, EndStrandTask(w)), st)
  {
    var t := Do(s, EndStrandTask(w));
    var d := s.workers[w].strand;
    WorkerSet(s.workers, w, t.workers[w], st);
    assert Draining(t.workers, st) == Draining(s.workers, st);
    if st in s.strands {
      var now :| RunsNow(s.workers, st, now) && s.posted[st] == s.ran[st] + now + s.strands[st].queue;
      if d == st {
        OneDrainer(s, st, w);
        assert w in Draining(s.workers, st) && now == [s.workers[w].current.value];
        assert RunsNow(t.workers, st, []);
        assert s.ran[st] + now + [] + s.strands[st].queue == s.posted[st];
      } else {
        assert RunsNow(t.workers, st, now);
      }
    }
  }

  lemma StrandFitsStep(s: State, step: Step, st: nat)
    requires Enabled(s, step) && StrandFits(s, st)
    ensures StrandFits(Do(s, step), st)
  {
    hide StrandFits;
    match step
    case PostJob(_, _) => PostFits(s, step, st);
    case PostToStrand(_, _) => PostFits(s, step, st);
    case HandOver(_, _) => PostFits(s, step, st);
    case Enter(_) => IdleFits(s, step, st);
    case Retire(_) => IdleFits(s, step, st);
    case Spawn(_) => IdleFits(s, step, st);
    case EndTask(_) => IdleFits(s, step, st);
    case Take(w) => TakeFits(s, w, st);
    case DrainNext(w) => DrainFits(s, w, st);
    case EndStrandTask(w) => EndFits(s, w, st);
  }

  lemma FitsStep(s: State, step: Step)
    requires Enabled(s, step) && Fits(s)
    ensures Fits(Do(s, step))
  {
    CountedStep(s, step);
    QueuesStep(s, step);
    ShapedStep(s, step);
    forall st: nat ensures StrandFits(Do(s, step), st) {
      StrandFitsStep(s, step, st);
    }
  }

  lemma ShapedStep(s: State, step: Step)
    requires Enabled(s, step)
    ensures Shaped(Do(s, step))
  {
    match step
    case PostJob(_, _) =>
    case PostToStrand(_, _) =>
    case HandOver(_, _) =>
    case Take(w) => TakeDrains(s, w, 0);
    case DrainNext(w) => DrainKeeps(s, w);
    case _ =>
    hide TakeStep, DrainNextStep, DrainJobs;
  }

  lemma FitsInitially(threads: nat, maxThreads: nat, strands: set<nat>)
    ensures Fits(Initial(threads, maxThreads, strands))
  {
    var s := Initial(threads, maxThreads, strands);
    assert s.workers.Keys == Ids(s.core);
    assert Idlers(s.workers) == {};
    forall st: nat ensures StrandFits(s, st) {
      assert Draining(s.workers, st) == {};
      assert RunsNow(s.workers, st, []);
    }
  }

  lemma {:induction false} FitsRun(states: seq<State>, k: nat)
    requires IsRun(states) && k < |states|
    ensures Fits(states[k])
  {
    if k == 0 {
      var threads, maxThreads, strands :| states[0] == Initial(threads, maxThreads, strands);
      FitsInitially(threads, maxThreads, strands);
    } else {
      FitsRun(states, k - 1);
      FitsFollows(states[k - 1], states[k]);
      hide Follows, Fits;
    }
  }

  lemma FitsFollows(s: State, t: State)
    requires Follows(s, t) && Fits(s)
    ensures Fits(t)
  {
    hide Fits, Do, Enabled;
    var step :| Enabled(s, step) && Do(s, step) == t;
    FitsStep(s, step);
  }

  // ----- what is promised ---------------------------------------------------

  // In every state of every run: a strand is draining exactly when one drain
  // job for it is on its way to the pool, queued or running, which a
  // non-empty queue implies; no two workers drain it at once; and the tasks
  // posted to it are those that ran, the one running and those queued, in
  // post order.
  lemma StrandsInOrder(states: seq<State>, k: nat, st: nat)
    requires IsRun(states) && k < |states| && st in states[k].strands
    ensures var s := states[k];
      && st in s.posted && st in s.ran
      && (s.strands[st].draining <==> DrainsOf(s, st) == 1) && DrainsOf(s, st) <= 1
      && (s.strands[st].queue != [] ==> DrainsOf(s, st) == 1)
      && (forall w, x :: w in Draining(s.workers, st) && x in Draining(s.workers, st) ==> w == x)
      && Kept(s, st)
  {
    FitsRun(states, k);
    var s := states[k];
    assert StrandFits(s, st);
    forall w, x | w in Draining(s.workers, st) && x in Draining(s.workers, st) ensures w == x {
      OneDrainer(s, st, w);
    }
  }

  // Each queue has handed out, once and in the order accepted, all but the
  // jobs still queued; and the counters are exact and bounded.
  lemma PoolInOrder(states: seq<State>, k: nat)
    requires IsRun(states) && k < |states|
    ensures var s := states[k];
      && s.interactive.accepted == s.interactive.started + s.interactive.jobs
      && s.background.accepted == s.background.started + s.background.jobs
      && s.idle == |Idlers(s.workers)| <= s.live == |s.workers| <= Max(s.core, s.max)
  {
    FitsRun(states, k);
    IdlersBound(states[k].workers);
  }

  lemma IdlersBound(workers: map<nat, Worker>)
    ensures |Idlers(workers)| <= |workers|
  {
    SubsetSize(Idlers(workers), workers.Keys);
    assert |workers| == |workers.Keys|;
  }

  lemma {:induction false} SubsetSize(a: set<nat>, b: set<nat>)
    requires a <= b
    ensures |a| <= |b|
  {
    if a != {} {
      var x :| x in a;
      SubsetSize(a - {x}, b - {x});
    }
  }

  // What is accepted only ever grows, and a background job starts only with
  // no interactive one queued.
  ghost predicate Grown(s: State, t: State) {
    && s.interactive.accepted <= t.interactive.accepted
    && (t.background.started != s.background.started ==> s.interactive.jobs == [] && t.interactive == s.interactive)
  }

  lemma TakeGrows(s: State, w: nat)
    requires Enabled(s, Take(w))
    ensures Grown(s, TakeStep(s, w))
  {
  }

  lemma AcceptGrows(s: State, priority: Priority, job: Job)
    ensures Grown(s, Accept(s, priority, job))
  {
  }

  lemma QueuesGrow(s: State, step: Step)
    requires Enabled(s, step)
    ensures Grown(s, Do(s, step))
  {
    match step
    case PostJob(priority, task) => AcceptGrows(s, priority, Plain(task));
    case HandOver(st, priority) => AcceptGrows(s, priority, Drain(st));
    case Take(w) => TakeGrows(s, w);
    case DrainNext(w) => QueueKeptByDrain(s, w);
    case PostToStrand(st, task) => QueueKeptByPost(s, st, task);
    case _ =>
    hide Accept, TakeStep, DrainNextStep, StrandPostStep;
  }

  lemma FollowsGrow(s: State, t: State)
    requires Follows(s, t)
    ensures Grown(s, t)
  {
    var step :| Enabled(s, step) && Do(s, step) == t;
    QueuesGrow(s, step);
    hide Do, Enabled, Grown;
  }

  lemma StepOf(states: seq<State>, k: nat)
    requires IsRun(states) && 0 < k < |states|
    ensures Follows(states[k - 1], states[k])
  {
  }

  lemma {:induction false} AcceptedGrows(states: seq<State>, j: nat, k: nat)
    requires IsRun(states) && j <= k < |states|
    ensures states[j].interactive.accepted <= states[k].interactive.accepted
    decreases k
  {
    hide *;
    if j < k {
      AcceptedGrows(states, j, k - 1);
      StepOf(states, k);
      FollowsGrow(states[k - 1], states[k]);
      AcceptedMore(states[j], states[k - 1], states[k]);
    }
  }

  lemma AcceptedMore(s: State, t: State, u: State)
    requires s.interactive.accepted <= t.interactive.accepted && Grown(t, u)
    ensures s.interactive.accepted <= u.interactive.accepted
  {
  }

  // By the time a background job starts, every interactive job accepted up to
  // then has started.
  lemma InteractiveFirst(states: seq<State>, j: nat, k: nat)
    requires IsRun(states) && j <= k < |states| && k > 0
    requires states[k].background.started != states[k - 1].background.started
    ensures states[j].interactive.accepted <= states[k].interactive.started
  {
    hide Follows;
    FitsRun(states, k);
    AcceptedGrows(states, j, k);
    FollowsGrow(states[k - 1], states[k]);
    hide IsRun;
    assert QueueFits(states[k].interactive);
  }
}
