/** The dispatcher never gets stuck: some step is enabled until nothing is
    left to do, and every step but receiving brings that closer. */
module RpcProgress {
  import opened Arithmetic
  import opened RpcRegistry
  import opened RpcDispatcher
  import opened RpcFrames
  import opened RpcAnswers
  import opened RpcInflight
  import opened RpcOrder

  // ----- the deferred-parse budget ------------------------------------------

  function ItemBytes(items: seq<Item>): nat {
    if items == [] then 0
    else (if items[0].Route? then items[0].bytes else 0) + ItemBytes(items[1..])
  }

  function ReaderBytes(r: Reader): nat {
    match r
    case Queueing(_, bytes) => bytes
    case Posting(_, _, bytes) => bytes
    case _ => 0
  }

  function DrainerBytes(d: Drainer): nat {
    match d
    case Drains(_, bytes) => bytes
    case Releasing(bytes) => bytes
    case _ => 0
  }

  // The bytes reserved are those of the payloads deferred and not routed yet.
  ghost predicate BytesExact(s: State) {
    s.deferredBytes == ReaderBytes(s.reader) + ItemBytes(s.strand) + DrainerBytes(s.drainer) <= MAX_DEFERRED_BYTES
  }

  lemma {:induction false} BytesPush(items: seq<Item>, item: Item)
    ensures ItemBytes(items + [item]) == ItemBytes(items) + if item.Route? then item.bytes else 0
  {
    if items == [] {
      assert items + [item] == [item];
    } else {
      BytesPush(items[1..], item);
      assert (items + [item])[1..] == items[1..] + [item];
    }
  }

  lemma BytesRoute(s: State, a: Actor)
    requires Enabled(s, RouteMessage(a)) && BytesExact(s)
    ensures BytesExact(RouteStep(s, a))
  {
    RouteFrame(s, a);
    RouteEffect(s, a);
    BytesPush(s.strand, Handle(Doing(s, a).i));
    hide RouteStep, ItemBytes;
  }

  lemma BytesStart(s: State, a: Actor)
    requires Enabled(s, StartRequest(a)) && BytesExact(s)
    ensures BytesExact(StartStep(s, a))
  {
    StartFrame(s, a);
    BytesPush(s.strand, Launch(Doing(s, a).i));
    hide StartStep, ItemBytes;
  }

  lemma BytesStep(s: State, step: Step)
    requires Enabled(s, step) && BytesExact(s)
    ensures BytesExact(Do(s, step))
  {
    if step.RouteMessage? {
      BytesRoute(s, step.a);
    } else if step.StartRequest? {
      BytesStart(s, step.a);
    } else if MovesTask(step) {
      ReaderFrame(s, step);
      DrainerFrame(s, step);
      QueueFrame(s, step);
      BytesFrame(s, step);
      hide Do;
    } else if MovesReader(step) {
      BytesReader(s, step);
    } else {
      BytesDrainer(s, step);
    }
    hide RouteStep, StartStep;
  }

  lemma BytesReader(s: State, step: Step)
    requires Enabled(s, step) && BytesExact(s) && MovesReader(step) && !step.RouteMessage? && !step.StartRequest?
    ensures BytesExact(Do(s, step))
  {
    DrainerFrame(s, step);
    QueueFrame(s, step);
    if step.PostRoute? { BytesPush(s.strand, Route(s.reader.i, s.reader.n, s.reader.bytes)); }
    hide ItemBytes;
  }

  lemma BytesDrainer(s: State, step: Step)
    requires Enabled(s, step) && BytesExact(s) && MovesDrainer(step) && !step.RouteMessage? && !step.StartRequest?
    ensures BytesExact(Do(s, step))
  {
    ReaderFrame(s, step);
    QueueFrame(s, step);
  }

  lemma {:induction false} BytesRun(states: seq<State>, k: nat)
    requires IsRun(states) && k < |states|
    ensures BytesExact(states[k]) && states[k].deferredBytes <= 64 * 1024 * 1024
    ensures forall p: Payload :: states[k].reader == Waiting ==>
      Do(states[k], Receive(p)).deferredBytes == states[k].deferredBytes +
        if p.size > 256 * 1024 && states[k].deferredBytes + p.size <= 64 * 1024 * 1024 then p.size else 0
  {
    if k > 0 {
      BytesRun(states, k - 1);
      assert Follows(states[k - 1], states[k]);
      var step :| Enabled(states[k - 1], step) && Do(states[k - 1], step) == states[k];
      BytesStep(states[k - 1], step);
    }
  }

  // ----- something can always be done ---------------------------------------

  // A state every reachable one is.
  ghost predicate Healthy(s: State) {
    Staged(s) && BytesExact(s)
  }

  // The step that is next while work is left.
  lemma NextStep(s: State) returns (step: Step)
    requires Healthy(s) && !Quiescent(s)
    ensures Enabled(s, step) && !step.Receive?
  {
    if s.reader != Waiting {
      step := ReaderNext(s);
    } else if s.drainer != Idle {
      step := DrainerNext(s);
    } else if s.strand != [] {
      step := TakeItem;
    } else if s.running != map[] {
      step := TaskNext(s);
    } else if s.ready != multiset{} {
      var i :| i in s.ready;
      step := PoolTake(i);
    } else {
      assert IsSerialIndex(s, s.serial[0]);
      step := LaneTake(0);
    }
  }

  lemma ReaderNext(s: State) returns (step: Step)
    requires Healthy(s) && s.reader != Waiting
    ensures Enabled(s, step) && !step.Receive?
  {
    match s.reader
    case Checking(_) => step := CheckQueue;
    case Queueing(_, _) => step := TakeSlot;
    case Posting(_, _, _) => step := PostRoute;
    case Routes(AtMessage(_, _)) => step := RouteMessage(TheReader);
    case Routes(AtStart(_)) => step := StartRequest(TheReader);
    case Routes(AtRefuse(_)) => step := RefuseRequest(TheReader);
  }

  lemma DrainerNext(s: State) returns (step: Step)
    requires Healthy(s) && s.drainer != Idle
    ensures Enabled(s, step) && !step.Receive?
  {
    match s.drainer
    case Drains(AtMessage(_, _), _) => step := RouteMessage(TheDrainer);
    case Drains(AtStart(_), _) => step := StartRequest(TheDrainer);
    case Drains(AtRefuse(_), _) => step := RefuseRequest(TheDrainer);
    case Handling(_) => step := EndHandler;
    case Releasing(_) => step := ReleaseBytes;
    case Finishing => step := FinishQueued;
  }

  lemma TaskNext(s: State) returns (step: Step)
    requires Healthy(s) && s.running != map[]
    ensures Enabled(s, step) && !step.Receive?
  {
    var i :| i in s.running;
    match s.running[i]
    case Taken => step := LookUp(i);
    case Working => step := EndWork(i, Result);
    case Erasing(_) => step := EraseEntry(i);
    case Sending(_) => step := SendAnswer(i);
  }

  // ----- and it comes to an end ---------------------------------------------

  function RoutingWork(r: Routing): nat {
    match r case AtMessage(_, _) => 8 case AtStart(_) => 7 case AtRefuse(_) => 1
  }

  function ReaderWork(r: Reader): nat {
    match r
    case Waiting => 0
    case Checking(_) => 14
    case Queueing(_, _) => 13
    case Posting(_, _, _) => 12
    case Routes(m) => RoutingWork(m)
  }

  function DrainerWork(d: Drainer): nat {
    match d
    case Idle => 0
    case Drains(m, _) => RoutingWork(m) + 2
    case Releasing(_) => 2
    case Finishing => 1
    case Handling(_) => 1
  }

  function ItemWork(item: Item): nat {
    match item case Route(_, _, _) => 11 case Handle(_) => 2 case Launch(_) => 6
  }

  function StrandWork(items: seq<Item>): nat {
    if items == [] then 0 else ItemWork(items[0]) + StrandWork(items[1..])
  }

  // Tasks with at least p steps to go.
  function TasksWith(running: map<nat, Phase>, p: nat): set<nat> {
    set i | i in running && PhaseWork(running[i]) >= p
  }

  function PhaseWork(p: Phase): nat {
    match p case Taken => 4 case Working => 3 case Erasing(_) => 2 case Sending(_) => 1
  }

  function TaskWork(running: map<nat, Phase>): nat {
    |TasksWith(running, 1)| + |TasksWith(running, 2)| + |TasksWith(running, 3)| + |TasksWith(running, 4)|
  }

  // Steps left until nothing is to be done, at most.
  function Work(s: State): nat {
    ReaderWork(s.reader) + DrainerWork(s.drainer) + StrandWork(s.strand)
    + 5 * |s.serial| + 5 * |s.ready| + TaskWork(s.running)
  }

  lemma {:induction false} WorkPush(items: seq<Item>, item: Item)
    ensures StrandWork(items + [item]) == StrandWork(items) + ItemWork(item)
  {
    if items == [] {
      assert items + [item] == [item];
    } else {
      WorkPush(items[1..], item);
      assert (items + [item])[1..] == items[1..] + [item];
    }
  }

  lemma TasksUpdated(running: map<nat, Phase>, i: nat, p: Phase, q: nat)
    requires i in running
    ensures |TasksWith(running[i := p], q)| ==
      |TasksWith(running, q)| - One(PhaseWork(running[i]) >= q) + One(PhaseWork(p) >= q)
  {
    var before, after := TasksWith(running, q), TasksWith(running[i := p], q);
    assert after == if PhaseWork(p) >= q then before - {i} + {i} else before - {i};
  }

  lemma TasksAdded(running: map<nat, Phase>, i: nat, p: Phase, q: nat)
    requires i !in running
    ensures |TasksWith(running[i := p], q)| == |TasksWith(running, q)| + One(PhaseWork(p) >= q)
  {
    var before, after := TasksWith(running, q), TasksWith(running[i := p], q);
    assert after == if PhaseWork(p) >= q then before + {i} else before;
  }

  lemma TasksRemoved(running: map<nat, Phase>, i: nat, q: nat)
    requires i in running
    ensures |TasksWith(running - {i}, q)| == |TasksWith(running, q)| - One(PhaseWork(running[i]) >= q)
  {
    assert TasksWith(running - {i}, q) == TasksWith(running, q) - {i};
  }

  lemma TaskWorkUpdated(running: map<nat, Phase>, i: nat, p: Phase)
    requires i in running
    ensures TaskWork(running[i := p]) == TaskWork(running) - PhaseWork(running[i]) + PhaseWork(p)
    ensures TaskWork(running - {i}) == TaskWork(running) - PhaseWork(running[i])
  {
    forall q: nat ensures
      && |TasksWith(running[i := p], q)| == |TasksWith(running, q)| - One(PhaseWork(running[i]) >= q) + One(PhaseWork(p) >= q)
      && |TasksWith(running - {i}, q)| == |TasksWith(running, q)| - One(PhaseWork(running[i]) >= q)
    {
      TasksUpdated(running, i, p, q);
      TasksRemoved(running, i, q);
    }
  }

  lemma TaskWorkAdded(running: map<nat, Phase>, i: nat)
    requires i !in running
    ensures TaskWork(running[i := Taken]) == TaskWork(running) + 4
  {
    TasksAdded(running, i, Taken, 1);
    TasksAdded(running, i, Taken, 2);
    TasksAdded(running, i, Taken, 3);
    TasksAdded(running, i, Taken, 4);
  }

  lemma WorkRoute(s: State, a: Actor)
    requires Enabled(s, RouteMessage(a))
    ensures Work(RouteStep(s, a)) < Work(s)
  {
    RouteFrame(s, a);
    RouteEffect(s, a);
    WorkPush(s.strand, Handle(Doing(s, a).i));
    hide RouteStep, StrandWork, TaskWork;
  }

  lemma WorkStart(s: State, a: Actor)
    requires Enabled(s, StartRequest(a))
    ensures Work(StartStep(s, a)) < Work(s)
  {
    StartFrame(s, a);
    WorkPush(s.strand, Launch(Doing(s, a).i));
    hide StartStep, StrandWork, TaskWork;
  }

  lemma WorkTaken(s: State, step: Step)
    requires Enabled(s, step) && Sound(s) && (step.PoolTake? || step.LaneTake?)
    ensures Work(Do(s, step)) < Work(s)
  {
    var i := if step.PoolTake? then step.i else s.serial[step.i];
    NotRunningYet(s, i);
    TaskWorkAdded(s.running, i);
    hide TaskWork, Sound, FirstOfLane;
  }

  lemma WorkRunning(s: State, step: Step)
    requires Enabled(s, step) && MovesTask(step) && !step.PoolTake? && !step.LaneTake?
    ensures Work(Do(s, step)) < Work(s)
  {
    ReaderFrame(s, step);
    DrainerFrame(s, step);
    QueueFrame(s, step);
    if step.SendAnswer? {
      TaskWorkUpdated(s.running, step.i, Taken);
    } else {
      TaskWorkUpdated(s.running, step.i, Do(s, step).running[step.i]);
    }
    hide TaskWork, StrandWork;
  }

  lemma WorkDecreases(s: State, step: Step)
    requires Enabled(s, step) && Sound(s) && !step.Receive?
    ensures Work(Do(s, step)) < Work(s)
  {
    if step.RouteMessage? {
      WorkRoute(s, step.a);
    } else if step.StartRequest? {
      WorkStart(s, step.a);
    } else if step.PoolTake? || step.LaneTake? {
      WorkTaken(s, step);
    } else if MovesTask(step) {
      WorkRunning(s, step);
    } else if MovesReader(step) {
      WorkReader(s, step);
    } else {
      WorkDrainer(s, step);
    }
    hide RouteStep, StartStep, Work;
  }

  lemma WorkReader(s: State, step: Step)
    requires Enabled(s, step) && MovesReader(step) && !step.Receive? && !step.RouteMessage? && !step.StartRequest?
    ensures Work(Do(s, step)) < Work(s)
  {
    DrainerFrame(s, step);
    QueueFrame(s, step);
    TaskFrame(s, step);
    if step.PostRoute? { WorkPush(s.strand, Route(s.reader.i, s.reader.n, s.reader.bytes)); }
    hide TaskWork, StrandWork;
  }

  lemma WorkDrainer(s: State, step: Step)
    requires Enabled(s, step) && MovesDrainer(step) && !step.RouteMessage? && !step.StartRequest?
    ensures Work(Do(s, step)) < Work(s)
  {
    ReaderFrame(s, step);
    QueueFrame(s, step);
    TaskFrame(s, step);
    hide TaskWork;
  }

  lemma OneMore(states: seq<State>) returns (next: State)
    requires IsRun(states) && !Quiescent(states[|states| - 1])
    ensures IsRun(states + [next])
    ensures next.inbox == states[|states| - 1].inbox && Work(next) < Work(states[|states| - 1])
  {
    hide Do, Quiescent, Work, InOrder, PostedInOrder, HeldAreRouted, Launched, StartsLatest;
    var s := states[|states| - 1];
    StagedRun(states, |states| - 1);
    BytesRun(states, |states| - 1);
    var step := NextStep(s);
    WorkDecreases(s, step);
    InboxKept(s, step);
    next := Do(s, step);
    RunExtends(states, s, step, states + [next]);
  }

  // Every run goes on, without another payload, to a state where nothing is
  // left to do, in at most Work more steps.
  lemma {:induction false} RunsDry(states: seq<State>) returns (longer: seq<State>)
    requires IsRun(states)
    ensures IsRun(longer) && states <= longer
    ensures var s, t := states[|states| - 1], longer[|longer| - 1];
      Quiescent(t) && t.inbox == s.inbox && |longer| <= |states| + Work(s)
    decreases Work(states[|states| - 1])
  {
    hide Work, Quiescent, Follows;
    var s := states[|states| - 1];
    if Quiescent(s) {
      longer := states;
    } else {
      var next := OneMore(states);
      longer := RunsDry(states + [next]);
    }
  }

  lemma RunExtends(states: seq<State>, s: State, step: Step, next: seq<State>)
    requires IsRun(states) && s == states[|states| - 1] && Enabled(s, step) && next == states + [Do(s, step)]
    ensures IsRun(next)
  {
    hide Do;
    forall k | 0 < k < |next| ensures Follows(next[k - 1], next[k]) {
      if k < |states| { assert Follows(states[k - 1], states[k]); }
    }
  }

  // So every request is answered, exactly once, whatever came before.
  lemma EveryRequestAnswered(states: seq<State>, i: nat) returns (longer: seq<State>)
    requires IsRun(states) && i < |states[|states| - 1].inbox| && NeedsAnswer(states[|states| - 1].inbox[i].message)
    ensures IsRun(longer) && states <= longer && longer[|longer| - 1].inbox == states[|states| - 1].inbox
    ensures Answers(longer[|longer| - 1], i) == 1
  {
    longer := RunsDry(states);
    AnsweredOnce(longer, |longer| - 1, i);
  }

  // Nothing is left to do exactly when no step but receiving is enabled, and
  // then the table, the queue count and the byte budget are all back at rest.
  lemma OnlyQuiescentStops(states: seq<State>, k: nat)
    requires IsRun(states) && k < |states|
    ensures Quiescent(states[k]) <==> forall step :: Enabled(states[k], step) ==> step.Receive?
    ensures Quiescent(states[k]) ==>
      states[k].reg.inflight == map[] && states[k].reg.queuedRoutes == 0 && states[k].deferredBytes == 0
  {
    var s := states[k];
    StagedRun(states, k);
    BytesRun(states, k);
    if Quiescent(s) {
      QuiescentTableEmpty(states, k);
    } else {
      var step := NextStep(s);
    }
  }

  // One step other than receiving.
  ghost predicate GoesOn(s: State, t: State) {
    exists step :: Enabled(s, step) && !step.Receive? && Do(s, step) == t
  }

  // From its n-th state on the run receives nothing.
  ghost predicate OnItsOwn(states: seq<State>, n: nat) {
    IsRun(states) && 0 < n <= |states| && forall k :: n <= k < |states| ==> GoesOn(states[k - 1], states[k])
  }

  lemma WorkGoesOn(s: State, t: State)
    requires GoesOn(s, t) && Sound(s)
    ensures Work(t) < Work(s) && t.inbox == s.inbox
  {
    hide Do, Enabled, Work, Sound;
    var step :| Enabled(s, step) && !step.Receive? && Do(s, step) == t;
    WorkDecreases(s, step);
    InboxKept(s, step);
  }

  lemma OwnPrefix(states: seq<State>, n: nat)
    requires OnItsOwn(states, n) && n < |states|
    ensures var before := states[..|states| - 1];
      OnItsOwn(before, n) && GoesOn(before[|before| - 1], states[|states| - 1]) && before[n - 1] == states[n - 1]
  {
  }

  lemma {:induction false} WorkBounds(states: seq<State>, n: nat)
    requires OnItsOwn(states, n)
    ensures |states| - n + Work(states[|states| - 1]) <= Work(states[n - 1])
    ensures states[|states| - 1].inbox == states[n - 1].inbox
    decreases |states|
  {
    hide GoesOn, Work;
    if n < |states| {
      var before := states[..|states| - 1];
      OwnPrefix(states, n);
      WorkBounds(before, n);
      SoundRun(before, |before| - 1);
      hide *;
      WorkGoesOn(before[|before| - 1], states[|states| - 1]);
    }
  }

  // However a run goes on without receiving, it stops, within the work left,
  // and once nothing but receiving is enabled the request has its one answer.
  lemma AnsweredHowever(states: seq<State>, n: nat, i: nat)
    requires OnItsOwn(states, n) && i < |states[n - 1].inbox| && NeedsAnswer(states[n - 1].inbox[i].message)
    ensures |states| <= n + Work(states[n - 1])
    ensures (forall step :: Enabled(states[|states| - 1], step) ==> step.Receive?) ==> Answers(states[|states| - 1], i) == 1
  {
    WorkBounds(states, n);
    OnlyQuiescentStops(states, |states| - 1);
    AnsweredOnce(states, |states| - 1, i);
    hide Work, Answers, Quiescent, Enabled, GoesOn, IsRun;
  }
}
