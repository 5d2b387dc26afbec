/** The in-flight table names exactly the requests between registration and
    erasure, and every place holds messages of the right kind. */
module RpcInflight {
  import opened Arithmetic
  import opened RpcRegistry
  import opened RpcDispatcher
  import opened RpcFrames
  import opened RpcAnswers

  // ----- kinds --------------------------------------------------------------

  ghost predicate ReaderTyped(s: State) {
    match s.reader
    case Waiting => true
    case Checking(i) => i + 1 == |s.inbox|
    case Queueing(i, _) => i + 1 == |s.inbox|
    case Posting(i, _, _) => i + 1 == |s.inbox|
    case Routes(AtMessage(i, arrival)) => i + 1 == |s.inbox| && arrival == OnArrival
    case Routes(AtStart(i)) => i + 1 == |s.inbox| && IsRequest(s, i)
    case Routes(AtRefuse(i)) => i + 1 == |s.inbox| && IsRequest(s, i)
  }

  ghost predicate DrainerTyped(s: State) {
    match s.drainer
    case Drains(AtMessage(i, arrival), _) => i < |s.inbox| && arrival.Numbered?
    case Drains(AtStart(i), _) => IsRequest(s, i)
    case Drains(AtRefuse(i), _) => IsRequest(s, i)
    case Handling(i) => i < |s.inbox| && s.inbox[i].message.Notification?
    case _ => true
  }

  predicate ItemTyped(s: State, item: Item) {
    && item.i < |s.inbox|
    && (item.Handle? ==> s.inbox[item.i].message.Notification?)
    && (item.Launch? ==> IsRequest(s, item.i) && s.inbox[item.i].message.mode == AfterNotifications)
  }

  predicate IsAnswer(how: Outcome) {
    how != Nothing && how != Lost
  }

  predicate PhaseTyped(p: Phase) {
    (p.Erasing? || p.Sending?) ==> IsAnswer(p.how)
  }

  // Requests are answered, everything else is not.
  predicate ClosingTyped(s: State, c: Closing) {
    && c.i < |s.inbox|
    && (if NeedsAnswer(s.inbox[c.i].message) then IsAnswer(c.how) else c.how == Nothing)
  }

  predicate ReadyTyped(s: State, i: nat) {
    IsRequest(s, i) && s.inbox[i].message.mode in {Concurrent, AfterNotifications}
  }

  ghost predicate Typed(s: State) {
    && ReaderTyped(s) && DrainerTyped(s)
    && (forall item :: item in s.strand ==> ItemTyped(s, item))
    && (forall i :: i in s.ready ==> ReadyTyped(s, i))
    && (forall i :: i in s.serial ==> IsSerialIndex(s, i))
    && (forall i :: i in s.running ==> IsRequest(s, i) && PhaseTyped(s.running[i]))
    && (forall c :: c in s.closed ==> ClosingTyped(s, c))
  }

  // ----- the table ----------------------------------------------------------

  ghost predicate HolderListed(s: State, h: nat) {
    Holds(s, h) ==> IsRequest(s, h) && var id := s.inbox[h].message.id;
      id in s.reg.inflight && s.reg.inflight[id].holder == h
  }

  ghost predicate EntryHeld(s: State, id: int) {
    id in s.reg.inflight ==> Asks(s, s.reg.inflight[id].holder, id) && Holds(s, s.reg.inflight[id].holder)
  }

  // The table has one entry for each request registered and not yet erased.
  ghost predicate Listed(s: State) {
    && (forall h: nat :: HolderListed(s, h))
    && (forall id: int :: EntryHeld(s, id))
  }

  ghost predicate Sound(s: State) {
    Conserved(s) && Typed(s) && Listed(s)
  }

  // ----- who holds an entry after a step ------------------------------------

  predicate Registers(s: State, step: Step) {
    && step.RouteMessage? && Enabled(s, step)
    && s.inbox[Doing(s, step.a).i].message.Request?
    && s.inbox[Doing(s, step.a).i].message.id !in s.reg.inflight
  }

  lemma HoldsReader(s: State, step: Step, h: nat)
    requires Enabled(s, step)
    requires step.Receive? || step.CheckQueue? || step.TakeSlot? || step.PostRoute? || step.RefuseRequest?
    ensures Holds(Do(s, step), h) == Holds(s, h)
  {
  }

  lemma HoldsRoute(s: State, a: Actor, h: nat)
    requires Enabled(s, RouteMessage(a))
    ensures Holds(RouteStep(s, a), h) == (Holds(s, h) || (Registers(s, RouteMessage(a)) && h == Doing(s, a).i))
  {
    RouteFrame(s, a);
    RouteEffect(s, a);
    hide RouteStep;
  }

  lemma HoldsStart(s: State, a: Actor, h: nat)
    requires Enabled(s, StartRequest(a))
    ensures Holds(StartStep(s, a), h) == Holds(s, h)
  {
  }

  lemma HoldsDrainer(s: State, step: Step, h: nat)
    requires Enabled(s, step)
    requires step.TakeItem? || step.EndHandler? || step.ReleaseBytes? || step.FinishQueued?
    ensures Holds(Do(s, step), h) == Holds(s, h)
  {
    if step.TakeItem? {
      assert s.strand == [s.strand[0]] + s.strand[1..];
    }
  }

  lemma HoldsWork(s: State, step: Step, h: nat)
    requires Enabled(s, step) && (step.LookUp? || step.EndWork? || step.SendAnswer? || step.PoolTake?)
    requires step.LookUp? ==> s.inbox[step.i].message.id in s.reg.inflight
    ensures Holds(Do(s, step), h) == Holds(s, h)
  {
  }

  lemma HoldsTask(s: State, step: Step, h: nat)
    requires Enabled(s, step) && Sound(s) && MovesTask(step)
    ensures Holds(Do(s, step), h) == (Holds(s, h) && !(step.EraseEntry? && h == step.i))
  {
    if step.EraseEntry? {
      HoldsErase(s, step.i, h);
    } else if step.LaneTake? {
      HoldsLane(s, step.i, h);
    } else {
      if step.LookUp? { LookedUpHolds(s, step.i); }
      hide Sound, Enabled, Do, Holds;
      HoldsWork(s, step, h);
    }
    hide Sound, Holds, Do;
  }

  lemma LookedUpHolds(s: State, i: nat)
    requires Enabled(s, LookUp(i)) && Sound(s)
    ensures s.inbox[i].message.id in s.reg.inflight
  {
    assert HolderListed(s, i);
  }

  lemma HoldsErase(s: State, i: nat, h: nat)
    requires Enabled(s, EraseEntry(i)) && Conserved(s)
    ensures Holds(Do(s, EraseEntry(i)), h) == (Holds(s, h) && h != i)
  {
    OnlyRunning(s, i);
    hide Conserved;
  }

  lemma HoldsLane(s: State, k: nat, h: nat)
    requires Enabled(s, LaneTake(k))
    ensures Holds(Do(s, LaneTake(k)), h) == Holds(s, h)
  {
    SerialSplit(s.serial, k, h);
    hide FirstOfLane;
  }

  lemma SerialSplit(serial: seq<nat>, k: nat, h: nat)
    requires k < |serial|
    ensures h in serial <==> h == serial[k] || h in serial[..k] + serial[k + 1..]
  {
    assert serial == serial[..k] + [serial[k]] + serial[k + 1..];
  }

  // A running task is nowhere else.
  lemma OnlyRunning(s: State, i: nat)
    requires Conserved(s) && i in s.running
    ensures s.reader != Routes(AtStart(i)) && !(s.drainer.Drains? && s.drainer.r == AtStart(i))
    ensures Launch(i) !in s.strand && i !in s.serial && i !in s.ready
  {
    assert Places(s, i) <= 1;
    SerialIn(s.serial, i);
    if Launch(i) in s.strand { ItemIn(s.strand, Launch(i)); }
  }

  // ----- the table after a step ---------------------------------------------

  lemma TableKept(s: State, step: Step)
    requires Enabled(s, step) && Sound(s)
    requires !step.RouteMessage? && !step.EraseEntry?
    ensures Do(s, step).reg.inflight == s.reg.inflight
  {
    TableFrame(s, step);
  }

  lemma TableRoute(s: State, a: Actor, id: int)
    requires Enabled(s, RouteMessage(a))
    ensures
      var i := Doing(s, a).i;
      var before, after := s.reg.inflight, RouteStep(s, a).reg.inflight;
      if Registers(s, RouteMessage(a)) && id == s.inbox[i].message.id then
        id in after && after[id].holder == i
      else
        (id in after <==> id in before) && (id in before ==> after[id].holder == before[id].holder)
  {
    RouteTable(s, a);
    hide RouteStep;
  }

  lemma HoldsStep(s: State, step: Step, h: nat)
    requires Enabled(s, step) && Sound(s)
    ensures Holds(Do(s, step), h) ==
      ((Holds(s, h) && !(step.EraseEntry? && h == step.i)) || (Registers(s, step) && h == Doing(s, step.a).i))
  {
    hide Holds, Sound;
    if step.RouteMessage? {
      HoldsRoute(s, step.a, h);
    } else if step.StartRequest? {
      HoldsStart(s, step.a, h);
    } else if step.Receive? || step.CheckQueue? || step.TakeSlot? || step.PostRoute? || step.RefuseRequest? {
      HoldsReader(s, step, h);
    } else if step.TakeItem? || step.EndHandler? || step.ReleaseBytes? || step.FinishQueued? {
      HoldsDrainer(s, step, h);
    } else {
      HoldsTask(s, step, h);
    }
  }

  lemma ListedStep(s: State, step: Step)
    requires Enabled(s, step) && Sound(s)
    ensures Listed(Do(s, step))
  {
    var t := Do(s, step);
    InboxKept(s, step);
    forall h: nat ensures HolderListed(t, h) {
      HolderListedStep(s, step, h);
    }
    forall id: int ensures EntryHeld(t, id) {
      EntryHeldStep(s, step, id);
    }
  }

  lemma HolderListedStep(s: State, step: Step, h: nat)
    requires Enabled(s, step) && Sound(s)
    ensures HolderListed(Do(s, step), h)
  {
    InboxKept(s, step);
    HoldsStep(s, step, h);
    assert HolderListed(s, h);
    hide Holds, Places, Typed;
    if step.RouteMessage? {
      if IsRequest(s, h) { TableRoute(s, step.a, s.inbox[h].message.id); }
      hide RouteStep;
    } else if step.EraseEntry? {
      assert HolderListed(s, step.i);
    } else {
      TableKept(s, step);
      hide Do;
    }
  }

  lemma EntryHeldStep(s: State, step: Step, id: int)
    requires Enabled(s, step) && Sound(s)
    ensures EntryHeld(Do(s, step), id)
  {
    InboxKept(s, step);
    assert EntryHeld(s, id);
    hide Places, Typed;
    if id in Do(s, step).reg.inflight {
      HoldsStep(s, step, Do(s, step).reg.inflight[id].holder);
    }
    hide Holds;
    if step.RouteMessage? {
      TableRoute(s, step.a, id);
      hide RouteStep;
    } else if !step.EraseEntry? {
      TableKept(s, step);
      hide Do;
    }
  }

  // ----- kinds after a step -------------------------------------------------

  lemma ReaderStaysTyped(s: State, step: Step)
    requires Enabled(s, step) && Typed(s)
    ensures ReaderTyped(Do(s, step))
  {
    InboxKept(s, step);
    if !MovesReader(step) {
      ReaderFrame(s, step);
      hide Do;
    } else if step.RouteMessage? {
      RouteEffect(s, step.a);
      hide RouteStep;
    } else if step.StartRequest? {
      StartFrame(s, step.a);
      hide StartStep;
    }
  }

  lemma DrainerStaysTyped(s: State, step: Step)
    requires Enabled(s, step) && Typed(s)
    ensures DrainerTyped(Do(s, step))
  {
    InboxKept(s, step);
    if !MovesDrainer(step) {
      DrainerFrame(s, step);
      hide Do;
    } else if step.RouteMessage? {
      RouteEffect(s, step.a);
      hide RouteStep;
    } else if step.StartRequest? {
      StartFrame(s, step.a);
      hide StartStep;
    } else if step.TakeItem? {
      assert ItemTyped(s, s.strand[0]);
    }
  }

  // What a step posts to the strand.
  lemma NewlyPosted(s: State, step: Step, item: Item)
    requires Enabled(s, step) && item in Do(s, step).strand && item !in s.strand
    ensures
      || (step.RouteMessage? && s.inbox[Doing(s, step.a).i].message.Notification? && item == Handle(Doing(s, step.a).i))
      || (step.StartRequest? && s.inbox[Doing(s, step.a).i].message.mode == AfterNotifications && item == Launch(Doing(s, step.a).i))
      || (step.PostRoute? && item == Route(s.reader.i, s.reader.n, s.reader.bytes))
  {
    if step.RouteMessage? {
      RouteEffect(s, step.a);
    } else if step.StartRequest? {
      StartFrame(s, step.a);
    } else if !step.PostRoute? && !step.TakeItem? {
      QueueFrame(s, step);
      hide Do;
    }
    hide RouteStep, StartStep;
  }

  lemma StrandTyped(s: State, step: Step)
    requires Enabled(s, step) && Typed(s)
    ensures forall item :: item in Do(s, step).strand ==> ItemTyped(Do(s, step), item)
  {
    InboxKept(s, step);
    var t := Do(s, step);
    hide Do;
    forall item | item in t.strand ensures ItemTyped(t, item) {
      if item in s.strand {
        assert ItemTyped(s, item);
      } else {
        NewlyPosted(s, step, item);
      }
    }
  }

  // What a step makes ready was a request or launched.
  lemma NewlyReady(s: State, step: Step, i: nat)
    requires Enabled(s, step) && i in Do(s, step).ready && i !in s.ready
    ensures (IsRequest(s, i) && s.inbox[i].message.mode == Concurrent) || (s.strand != [] && s.strand[0] == Launch(i))
  {
    if step.RouteMessage? {
      RouteFrame(s, step.a);
    } else if step.StartRequest? {
      StartFrame(s, step.a);
    } else if !step.TakeItem? {
      QueueFrame(s, step);
      hide Do;
    }
    hide RouteStep, StartStep;
  }

  lemma ReadyStaysTyped(s: State, step: Step)
    requires Enabled(s, step) && Typed(s)
    ensures forall i :: i in Do(s, step).ready ==> ReadyTyped(Do(s, step), i)
  {
    InboxKept(s, step);
    hide Do, Enabled;
    var t := Do(s, step);
    forall i | i in t.ready ensures ReadyTyped(t, i) {
      if i in s.ready {
        assert ReadyTyped(s, i);
      } else {
        NewlyReady(s, step, i);
        if s.strand != [] && s.strand[0] == Launch(i) { assert ItemTyped(s, s.strand[0]); }
      }
    }
  }

  lemma SerialStaysTyped(s: State, step: Step)
    requires Enabled(s, step) && Typed(s)
    ensures forall i :: i in Do(s, step).serial ==> IsSerialIndex(Do(s, step), i)
  {
    InboxKept(s, step);
    var t := Do(s, step);
    if step.RouteMessage? {
      RouteFrame(s, step.a);
    } else if step.StartRequest? {
      StartFrame(s, step.a);
    } else {
      QueueFrame(s, step);
    }
    hide RouteStep, StartStep;
    forall i | i in t.serial ensures IsSerialIndex(t, i) {
      if i in s.serial { assert IsSerialIndex(s, i); }
    }
  }

  // What a task step leaves of a task.
  lemma TaskAfter(s: State, step: Step, i: nat)
    requires Enabled(s, step) && MovesTask(step) && i in Do(s, step).running
    requires step.LookUp? ==> s.inbox[step.i].message.id in s.reg.inflight
    ensures i in s.running && PhaseTyped(s.running[i]) ==> PhaseTyped(Do(s, step).running[i])
    ensures i !in s.running ==> (i in s.ready || IsSerialIndex(s, i)) && Do(s, step).running[i] == Taken
  {
    hide FirstOfLane;
    if step.LaneTake? { LaneIsSerial(s, step.i); }
  }

  lemma LaneIsSerial(s: State, k: nat)
    requires Enabled(s, LaneTake(k))
    ensures IsSerialIndex(s, s.serial[k])
  {
  }

  lemma TasksTyped(s: State, step: Step)
    requires Enabled(s, step) && Sound(s)
    ensures forall i :: i in Do(s, step).running ==> IsRequest(Do(s, step), i) && PhaseTyped(Do(s, step).running[i])
  {
    InboxKept(s, step);
    var t := Do(s, step);
    if !MovesTask(step) {
      TaskFrame(s, step);
      hide Do;
    } else {
      if step.LookUp? { LookedUpHolds(s, step.i); }
      hide Do, Enabled, Conserved, Listed;
      forall i | i in t.running ensures IsRequest(t, i) && PhaseTyped(t.running[i]) {
        TaskAfter(s, step, i);
        if i in s.ready { assert ReadyTyped(s, i); }
      }
    }
  }

  // What a step closes it closes rightly.
  lemma NewlyClosed(s: State, step: Step, c: Closing)
    requires Enabled(s, step) && Closes(step) && !step.RouteMessage? && c in Do(s, step).closed && c !in s.closed
    ensures
      || (step.CheckQueue? && c == Closing(s.reader.i, Error) && s.inbox[s.reader.i].message.Malformed?)
      || (step.RefuseRequest? && c == Closing(Doing(s, step.a).i, InUse))
      || (step.EndHandler? && c == Closing(s.drainer.i, Nothing))
      || (step.SendAnswer? && c == Closing(step.i, s.running[step.i].how))
  {
  }

  lemma ClosedRoute(s: State, a: Actor)
    requires Enabled(s, RouteMessage(a)) && forall c :: c in s.closed ==> ClosingTyped(s, c)
    ensures forall c :: c in RouteStep(s, a).closed ==> ClosingTyped(s, c)
  {
    RouteEffect(s, a);
    hide RouteStep;
  }

  lemma ClosedOther(s: State, step: Step, c: Closing)
    requires Enabled(s, step) && Typed(s) && Closes(step) && !step.RouteMessage? && c in Do(s, step).closed
    ensures ClosingTyped(s, c)
  {
    if c in s.closed {
      assert ClosingTyped(s, c);
    } else {
      NewlyClosed(s, step, c);
      if step.SendAnswer? { assert PhaseTyped(s.running[step.i]); }
    }
    hide Do, Holds;
  }

  lemma ClosedTyped(s: State, step: Step)
    requires Enabled(s, step) && Typed(s)
    ensures forall c :: c in Do(s, step).closed ==> ClosingTyped(Do(s, step), c)
  {
    InboxKept(s, step);
    var t := Do(s, step);
    if !Closes(step) {
      ClosedFrame(s, step);
    } else if step.RouteMessage? {
      ClosedRoute(s, step.a);
      hide RouteStep;
    } else {
      forall c | c in t.closed ensures ClosingTyped(s, c) { ClosedOther(s, step, c); }
    }
    hide Do, Enabled;
    assert forall c :: c in t.closed ==> ClosingTyped(s, c);
  }

  lemma SoundStep(s: State, step: Step)
    requires Enabled(s, step) && Sound(s)
    ensures Sound(Do(s, step))
  {
    ConservedStep(s, step);
    ListedStep(s, step);
    ReaderStaysTyped(s, step);
    DrainerStaysTyped(s, step);
    StrandTyped(s, step);
    ReadyStaysTyped(s, step);
    SerialStaysTyped(s, step);
    TasksTyped(s, step);
    ClosedTyped(s, step);
    hide Do;
  }

  lemma SoundInitially()
    ensures Sound(Initial())
  {
  }

  lemma {:induction false} SoundRun(states: seq<State>, k: nat)
    requires IsRun(states) && k < |states|
    ensures Sound(states[k])
  {
    if k == 0 {
      SoundInitially();
    } else {
      SoundRun(states, k - 1);
      assert Follows(states[k - 1], states[k]);
      var step :| Enabled(states[k - 1], step) && Do(states[k - 1], step) == states[k];
      SoundStep(states[k - 1], step);
    }
  }

  // ----- what clients see ---------------------------------------------------

  // The number of answers sent for message i.
  function Answers(s: State, i: nat): nat {
    CountAnswers(s.closed, i)
  }

  function CountAnswers(closed: seq<Closing>, i: nat): nat {
    if closed == [] then 0
    else One(closed[0].i == i && closed[0].how != Nothing) + CountAnswers(closed[1..], i)
  }

  lemma {:induction false} AnswersAreClosings(s: State, closed: seq<Closing>, i: nat)
    requires i < |s.inbox| && forall c :: c in closed ==> ClosingTyped(s, c)
    ensures CountAnswers(closed, i) == if NeedsAnswer(s.inbox[i].message) then ClosedAt(closed, i) else 0
  {
    if closed != [] {
      assert ClosingTyped(s, closed[0]);
      AnswersAreClosings(s, closed[1..], i);
    }
  }

  // Nothing is left to do: only a new payload can start a step.
  ghost predicate Quiescent(s: State) {
    s.reader == Waiting && s.drainer == Idle && s.strand == [] && s.serial == []
    && s.ready == multiset{} && s.running == map[]
  }

  // In every state of every run, no message has more than one answer, and a
  // response, notification or cancel none. When nothing is left to do, each
  // request and each malformed payload has exactly one.
  lemma AnsweredOnce(states: seq<State>, k: nat, i: nat)
    requires IsRun(states) && k < |states| && i < |states[k].inbox|
    ensures Answers(states[k], i) <= if NeedsAnswer(states[k].inbox[i].message) then 1 else 0
    ensures Quiescent(states[k]) ==> Answers(states[k], i) == if NeedsAnswer(states[k].inbox[i].message) then 1 else 0
  {
    var s := states[k];
    SoundRun(states, k);
    AnswersAreClosings(s, s.closed, i);
    assert Places(s, i) == 1;
  }

  // The task of a request finds its own entry: the "lost its in-flight entry"
  // branch is never taken.
  lemma EntryNeverLost(states: seq<State>, k: nat, i: nat)
    requires IsRun(states) && k < |states| && Enabled(states[k], LookUp(i))
    ensures
      var s := states[k];
      var id := s.inbox[i].message.id;
      id in s.reg.inflight && s.reg.inflight[id].holder == i && Do(s, LookUp(i)).running[i] == Working
  {
    SoundRun(states, k);
    assert HolderListed(states[k], i);
  }

  // When nothing is left to do the table is empty.
  lemma QuiescentTableEmpty(states: seq<State>, k: nat)
    requires IsRun(states) && k < |states| && Quiescent(states[k])
    ensures states[k].reg.inflight == map[]
  {
    var s := states[k];
    SoundRun(states, k);
    forall id: int ensures id !in s.reg.inflight {
      assert EntryHeld(s, id);
    }
  }
}
