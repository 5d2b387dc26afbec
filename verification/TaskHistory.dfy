/** What the pool's queues and strands hold against the posts made: runs with
    their steps, and when each step can be taken. */
module TaskHistory {
  import opened Arithmetic
  import opened TaskStrand
  import opened TaskPool
  import opened TaskProgress
  import opened Wrappers

  ghost predicate Made(s: State, step: Step, t: State) {
    Enabled(s, step) && Do(s, step) == t
  }

  // The run takes these steps, from a pool so constructed.
  ghost predicate Takes(states: seq<State>, steps: seq<Step>, threads: nat, maxThreads: nat, strands: set<nat>) {
    && |states| == |steps| + 1 && states[0] == Initial(threads, maxThreads, strands)
    && forall k :: 0 <= k < |steps| ==> Made(states[k], steps[k], states[k + 1])
  }

  lemma TakesRun(states: seq<State>, steps: seq<Step>, threads: nat, maxThreads: nat, strands: set<nat>)
    requires Takes(states, steps, threads, maxThreads, strands)
    ensures IsRun(states)
  {
    hide Initial;
    forall k | 0 < k < |states| ensures Follows(states[k - 1], states[k]) {
      assert Made(states[k - 1], steps[k - 1], states[k]);
    }
  }

  // ----- what was posted ----------------------------------------------------

  // The jobs posted to the pool with a priority, and the tasks posted to a
  // strand.
  function PostedWith(steps: seq<Step>, priority: Priority): seq<Job> {
    if steps == [] then [] else PostedWith(steps[..|steps| - 1], priority) + PostsWith(steps[|steps| - 1], priority)
  }

  function PostsWith(step: Step, priority: Priority): seq<Job> {
    match step
    case PostJob(p, task) => if p == priority then [Plain(task)] else []
    case HandOver(st, p) => if p == priority then [Drain(st)] else []
    case _ => []
  }

  function PostedTo(steps: seq<Step>, strand: nat): seq<nat> {
    if steps == [] then [] else PostedTo(steps[..|steps| - 1], strand) + PostsTo(steps[|steps| - 1], strand)
  }

  function PostsTo(step: Step, strand: nat): seq<nat> {
    if step.PostToStrand? && step.strand == strand then [step.task] else []
  }

  // ----- what a step adds ---------------------------------------------------

  lemma AddsJobs(s: State, step: Step)
    requires Enabled(s, step)
    ensures Do(s, step).interactive.accepted == s.interactive.accepted + PostsWith(step, Interactive)
    ensures Do(s, step).background.accepted == s.background.accepted + PostsWith(step, Background)
  {
    match step
    case Take(w) => KeepsAccepted(s, w);
    case DrainNext(w) => QueueKeptByDrain(s, w);
    case PostToStrand(st, task) => QueueKeptByPost(s, st, task);
    case _ =>
    hide TakeStep, DrainNextStep, StrandPostStep;
  }

  lemma KeepsAccepted(s: State, w: nat)
    requires Enabled(s, Take(w))
    ensures TakeStep(s, w).interactive.accepted == s.interactive.accepted
    ensures TakeStep(s, w).background.accepted == s.background.accepted
  {
  }

  lemma AddsTasks(s: State, step: Step, st: nat)
    requires Enabled(s, step) && st in s.posted
    ensures st in Do(s, step).posted && Do(s, step).posted[st] == s.posted[st] + PostsTo(step, st)
  {
    if step.Take? { KeepsPosted(s, step.w); }
    if step.DrainNext? { DrainKeepsPosted(s, step.w); }
    hide TakeStep, DrainNextStep;
  }

  lemma KeepsPosted(s: State, w: nat)
    requires Enabled(s, Take(w))
    ensures TakeStep(s, w).posted == s.posted && TakeStep(s, w).max == s.max
  {
  }

  lemma DrainKeepsPosted(s: State, w: nat)
    requires Enabled(s, DrainNext(w))
    ensures DrainNextStep(s, w).posted == s.posted && DrainNextStep(s, w).max == s.max
  {
  }

  ghost predicate Matches(s: State, steps: seq<Step>, strands: set<nat>) {
    && s.interactive.accepted == PostedWith(steps, Interactive) && s.background.accepted == PostedWith(steps, Background)
    && forall st :: st in strands ==> st in s.posted && s.posted[st] == PostedTo(steps, st)
  }

  lemma MatchesMore(s: State, step: Step, t: State, steps: seq<Step>, strands: set<nat>)
    requires Made(s, step, t) && Matches(s, steps, strands)
    ensures Matches(t, steps + [step], strands)
  {
    assert (steps + [step])[..|steps|] == steps;
    AddsJobs(s, step);
    forall st | st in strands ensures st in t.posted && t.posted[st] == PostedTo(steps + [step], st) {
      AddsTasks(s, step, st);
    }
    hide Enabled, Do;
  }

  // In every run each queue has accepted exactly the jobs posted with its
  // priority, and each strand the tasks posted to it, in order.
  lemma {:induction false} AcceptedArePosted(states: seq<State>, steps: seq<Step>, threads: nat, maxThreads: nat, strands: set<nat>, k: nat)
    requires Takes(states, steps, threads, maxThreads, strands) && k <= |steps|
    ensures Matches(states[k], steps[..k], strands)
    decreases k
  {
    if k == 0 {
    } else {
      AcceptedArePosted(states, steps, threads, maxThreads, strands, k - 1);
      assert Made(states[k - 1], steps[k - 1], states[k]);
      assert steps[..k] == steps[..k - 1] + [steps[k - 1]];
      hide *;
      MatchesMore(states[k - 1], steps[k - 1], states[k], steps[..k - 1], strands);
    }
  }

  // ----- when a step can be taken -------------------------------------------

  predicate Queued(s: State) {
    s.interactive.jobs != [] || s.background.jobs != []
  }

  // In every run: a post is always taken; a worker takes a job exactly when it
  // waits and one is queued; an added worker goes exactly when it waits and
  // none is queued; and one is added exactly when a job is queued, no worker
  // waits and there are fewer than allowed.
  lemma StepsTaken(states: seq<State>, k: nat, w: nat)
    requires IsRun(states) && k < |states|
    ensures forall priority, task :: Enabled(states[k], PostJob(priority, task))
    ensures forall st, task :: Enabled(states[k], PostToStrand(st, task)) <==> st in states[k].strands
    ensures Enabled(states[k], Take(w)) <==>
      var s := states[k]; w in s.workers && s.workers[w].Waiting? && Queued(s)
    ensures Enabled(states[k], Retire(w)) <==>
      var s := states[k]; w in s.workers && s.workers[w].Waiting? && !s.workers[w].core && !Queued(s)
    ensures Enabled(states[k], Spawn(w)) <==>
      var s := states[k];
      && w !in s.workers && Queued(s) && |s.workers| < s.max
      && forall x :: x in s.workers ==> !s.workers[x].Waiting?
  {
    var s := states[k];
    FitsRun(states, k);
    if w in s.workers && s.workers[w].Waiting? {
      assert w in Idlers(s.workers) && w in s.workers.Keys;
      assert |s.workers.Keys| == |s.workers|;
    }
    if Idlers(s.workers) != {} {
      var x :| x in Idlers(s.workers);
    }
    assert forall x :: x in s.workers && s.workers[x].Waiting? ==> x in Idlers(s.workers);
    hide IsRun, StrandFits;
  }

  // ----- how many workers ---------------------------------------------------

  lemma MaxKept(s: State, t: State)
    requires Follows(s, t)
    ensures t.max == s.max
  {
    var step :| Enabled(s, step) && Do(s, step) == t;
    if step.Take? { KeepsPosted(s, step.w); }
    if step.DrainNext? { DrainKeepsPosted(s, step.w); }
    hide TakeStep, DrainNextStep, Enabled;
  }

  lemma {:induction false} MaxRun(states: seq<State>, k: nat)
    requires IsRun(states) && k < |states|
    ensures states[k].max == states[0].max && states[k].core == states[0].core
    decreases k
  {
    hide *;
    if k > 0 {
      MaxRun(states, k - 1);
      StepOf(states, k);
      MaxKept(states[k - 1], states[k]);
      CoreFollows(states[k - 1], states[k]);
    }
  }

  // A pool of so many threads keeps that many core workers, one at least, and
  // never has more workers than the larger of its two limits.
  lemma WorkersBounded(states: seq<State>, steps: seq<Step>, threads: nat, maxThreads: nat, strands: set<nat>, k: nat)
    requires Takes(states, steps, threads, maxThreads, strands) && k <= |steps|
    ensures var core := if threads == 0 then 1 else threads;
      && |CoreOf(states[k].workers)| == core && states[k].max == (if maxThreads < threads then threads else maxThreads)
      && core <= |states[k].workers| <= if maxThreads < core then core else maxThreads
  {
    TakesRun(states, steps, threads, maxThreads, strands);
    CoreRun(states, k);
    MaxRun(states, k);
    PoolInOrder(states, k);
    SubsetSize(CoreOf(states[k].workers), states[k].workers.Keys);
    assert |states[k].workers.Keys| == |states[k].workers|;
    hide CoreOf, Idlers, IsRun;
  }
}
