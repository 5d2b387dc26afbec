/** Messages are routed in arrival order, notifications run before the
    AfterNotifications requests behind them, and serial strands keep order. */
module RpcOrder {
  import opened Arithmetic
  import opened RpcRegistry
  import opened RpcDispatcher
  import opened RpcFrames
  import opened RpcAnswers
  import opened RpcInflight

  // ----- arrival order ------------------------------------------------------

  ghost predicate Ascending(q: seq<nat>) {
    forall a, b :: 0 <= a < b < |q| ==> q[a] < q[b]
  }

  // Messages routed in turn, then those to be routed, in that order.
  function Turns(s: State): seq<nat> {
    s.routed + Unrouted(s)
  }

  // Payloads counted in queuedRoutes_.
  function Outstanding(s: State): nat {
    |RouteIndices(s.strand)| + One(s.drainer.Drains? || s.drainer.Releasing? || s.drainer.Finishing?) + One(s.reader.Posting?)
  }

  // A message the read loop routes itself, unless inline, finds nothing queued.
  ghost predicate DirectAlone(s: State) {
    s.reader.Routes? && s.reader.r.i < |s.inbox| && !IsInline(s.inbox[s.reader.r.i].message) ==> s.reg.queuedRoutes == 0
  }

  // What Turns keeps, apart from the payloads themselves.
  ghost predicate TurnsFit(turns: seq<nat>, inbox: seq<Payload>) {
    && Ascending(turns)
    && (forall i :: i in turns ==> i < |inbox|)
    && (forall i :: 0 <= i < |inbox| && InTurn(inbox[i].message) ==> i in turns)
  }

  ghost predicate InOrder(s: State) {
    && TurnsFit(Turns(s), s.inbox)
    && (forall i :: i in s.routed ==> i < |s.inbox| && InTurn(s.inbox[i].message))
    && s.reg.queuedRoutes == Outstanding(s)
    && DirectAlone(s)
  }

  lemma {:induction false} RoutesPush(items: seq<Item>, item: Item)
    ensures RouteIndices(items + [item]) == RouteIndices(items) + if item.Route? then [item.i] else []
  {
    if items == [] {
      assert items + [item] == [item];
    } else {
      RoutesPush(items[1..], item);
      assert (items + [item])[1..] == items[1..] + [item];
    }
  }

  lemma UnroutedRoute(s: State, a: Actor)
    requires Enabled(s, RouteMessage(a))
    ensures a == TheReader ==> Unrouted(s) == Unrouted(RouteStep(s, a)) + [s.reader.r.i]
    ensures a == TheDrainer ==> Unrouted(s) == [s.drainer.r.i] + Unrouted(RouteStep(s, a))
    ensures RouteIndices(RouteStep(s, a).strand) == RouteIndices(s.strand)
  {
    RouteFrame(s, a);
    RouteEffect(s, a);
    RoutesPush(s.strand, Handle(Doing(s, a).i));
    hide RouteStep;
  }

  lemma UnroutedStart(s: State, a: Actor)
    requires Enabled(s, StartRequest(a))
    ensures Unrouted(StartStep(s, a)) == Unrouted(s)
    ensures RouteIndices(StartStep(s, a).strand) == RouteIndices(s.strand)
  {
    StartFrame(s, a);
    RoutesPush(s.strand, Launch(Doing(s, a).i));
    hide StartStep;
  }

  lemma UnroutedTask(s: State, step: Step)
    requires Enabled(s, step) && MovesTask(step)
    ensures Unrouted(Do(s, step)) == Unrouted(s)
  {
    ReaderFrame(s, step);
    DrainerFrame(s, step);
    QueueFrame(s, step);
    hide Do;
  }

  lemma UnroutedReader(s: State, step: Step)
    requires Enabled(s, step) && (step.CheckQueue? || step.TakeSlot? || step.PostRoute? || step.RefuseRequest?)
    ensures
      if step.CheckQueue? && Do(s, step).reader == Waiting
      then Unrouted(s) == Unrouted(Do(s, step)) + [s.reader.i] && s.inbox[s.reader.i].message.Malformed?
      else Unrouted(Do(s, step)) == Unrouted(s)
  {
    if step.PostRoute? { RoutesPush(s.strand, Route(s.reader.i, s.reader.n, s.reader.bytes)); }
    hide RouteIndices;
  }

  lemma UnroutedDrainer(s: State, step: Step)
    requires Enabled(s, step) && (step.TakeItem? || step.EndHandler? || step.ReleaseBytes? || step.FinishQueued?)
    ensures Unrouted(Do(s, step)) == Unrouted(s)
  {
    if step.TakeItem? {
      assert RouteIndices(s.strand) == (if s.strand[0].Route? then [s.strand[0].i] else []) + RouteIndices(s.strand[1..]);
    }
    hide RouteIndices;
  }

  // No other step changes what is still to be routed, except by receiving a
  // payload or answering a malformed one at once.
  lemma UnroutedKept(s: State, step: Step)
    requires Enabled(s, step) && !step.RouteMessage? && !step.Receive?
    ensures
      if step.CheckQueue? && Do(s, step).reader == Waiting
      then Unrouted(s) == Unrouted(Do(s, step)) + [s.reader.i] && s.inbox[s.reader.i].message.Malformed?
      else Unrouted(Do(s, step)) == Unrouted(s)
  {
    hide Unrouted;
    if step.StartRequest? {
      UnroutedStart(s, step.a);
      hide StartStep;
    } else if MovesTask(step) {
      UnroutedTask(s, step);
    } else if step.TakeItem? || step.EndHandler? || step.ReleaseBytes? || step.FinishQueued? {
      UnroutedDrainer(s, step);
    } else {
      UnroutedReader(s, step);
    }
  }

  // `after` is `before` without its element k.
  predicate Drops(before: seq<nat>, after: seq<nat>, k: nat) {
    k < |before| && after == before[..k] + before[k + 1..]
  }

  lemma DropKeeps(before: seq<nat>, after: seq<nat>, k: nat)
    requires Drops(before, after, k) && Ascending(before)
    ensures Ascending(after)
    ensures forall i :: i in before ==> i == before[k] || i in after
    ensures forall i :: i in after ==> i in before
  {
    assert before == before[..k] + [before[k]] + before[k + 1..];
  }

  lemma DropLast(p: seq<nat>, i: nat)
    ensures Drops(p + [i], p, |p|) && (p + [i])[|p|] == i
  {
  }

  lemma DropMiddle(p: seq<nat>, i: nat, q: seq<nat>)
    ensures Drops(p + ([i] + q), p + q, |p|) && (p + ([i] + q))[|p|] == i
  {
  }

  lemma AloneWhenDirect(s: State)
    requires Enabled(s, RouteMessage(TheReader)) && InOrder(s) && InTurn(s.inbox[s.reader.r.i].message)
    ensures Unrouted(s) == [s.reader.r.i]
  {
  }

  // Routing a message in turn only moves the boundary in Turns; a message
  // not in turn leaves it.
  lemma TurnsRoute(s: State, a: Actor)
    requires Enabled(s, RouteMessage(a)) && InOrder(s)
    ensures
      var i := Doing(s, a).i;
      var after := Turns(RouteStep(s, a));
      if InTurn(s.inbox[i].message) then after == Turns(s)
      else exists k: nat :: Drops(Turns(s), after, k) && Turns(s)[k] == i
  {
    var i := Doing(s, a).i;
    var t := RouteStep(s, a);
    UnroutedRoute(s, a);
    RouteFrame(s, a);
    hide RouteStep, Unrouted;
    if a == TheReader {
      if InTurn(s.inbox[i].message) {
        AloneWhenDirect(s);
        assert Unrouted(t) == [];
      } else {
        DropLast(Turns(t), i);
        assert Turns(s) == Turns(t) + [i];
      }
    } else {
      if InTurn(s.inbox[i].message) {
        assert s.routed + ([i] + Unrouted(t)) == (s.routed + [i]) + Unrouted(t);
      } else {
        DropMiddle(s.routed, i, Unrouted(t));
      }
    }
  }

  lemma TurnsKept(s: State, step: Step)
    requires Enabled(s, step) && !step.RouteMessage? && !step.Receive?
    ensures
      var after := Turns(Do(s, step));
      if step.CheckQueue? && Do(s, step).reader == Waiting
      then Drops(Turns(s), after, |Turns(s)| - 1) && !InTurn(s.inbox[Turns(s)[|Turns(s)| - 1]].message)
      else after == Turns(s)
  {
    UnroutedKept(s, step);
    HistoryFrame(s, step);
    hide Do, Unrouted;
    var t := Do(s, step);
    if step.CheckQueue? && t.reader == Waiting {
      assert Turns(s) == Turns(t) + [s.reader.i];
    }
  }

  lemma FitPush(turns: seq<nat>, inbox: seq<Payload>, p: Payload)
    requires TurnsFit(turns, inbox)
    ensures TurnsFit(turns + [|inbox|], inbox + [p])
  {
    assert forall a :: 0 <= a < |turns| ==> turns[a] in turns;
  }

  lemma FitDrop(turns: seq<nat>, after: seq<nat>, inbox: seq<Payload>, k: nat)
    requires TurnsFit(turns, inbox) && Drops(turns, after, k)
    requires turns[k] < |inbox| ==> !InTurn(inbox[turns[k]].message)
    ensures TurnsFit(after, inbox)
  {
    DropKeeps(turns, after, k);
  }

  lemma TurnsReceive(s: State, p: Payload)
    requires Enabled(s, Receive(p)) && TurnsFit(Turns(s), s.inbox)
    ensures TurnsFit(Turns(ReceiveStep(s, p)), s.inbox + [p])
  {
    assert Turns(ReceiveStep(s, p)) == Turns(s) + [|s.inbox|];
    FitPush(Turns(s), s.inbox, p);
    hide TurnsFit, Turns;
  }

  lemma TurnsFitRoute(s: State, a: Actor)
    requires Enabled(s, RouteMessage(a)) && InOrder(s)
    ensures TurnsFit(Turns(RouteStep(s, a)), s.inbox)
  {
    TurnsRoute(s, a);
    hide RouteStep, Turns, TurnsFit, Outstanding;
    if !InTurn(s.inbox[Doing(s, a).i].message) {
      var k: nat :| Drops(Turns(s), Turns(RouteStep(s, a)), k) && Turns(s)[k] == Doing(s, a).i;
      FitDrop(Turns(s), Turns(RouteStep(s, a)), s.inbox, k);
    }
  }

  lemma TurnsFitKept(s: State, step: Step)
    requires Enabled(s, step) && !step.RouteMessage? && !step.Receive? && TurnsFit(Turns(s), s.inbox)
    ensures TurnsFit(Turns(Do(s, step)), s.inbox)
  {
    TurnsKept(s, step);
    hide Do, Turns, TurnsFit;
    if step.CheckQueue? && Do(s, step).reader == Waiting {
      FitDrop(Turns(s), Turns(Do(s, step)), s.inbox, |Turns(s)| - 1);
    }
  }

  lemma TurnsStep(s: State, step: Step)
    requires Enabled(s, step) && InOrder(s)
    ensures TurnsFit(Turns(Do(s, step)), Do(s, step).inbox)
  {
    InboxKept(s, step);
    hide Turns, TurnsFit, RouteStep, Outstanding, DirectAlone;
    if step.Receive? {
      TurnsReceive(s, step.p);
    } else if step.RouteMessage? {
      TurnsFitRoute(s, step.a);
    } else {
      TurnsFitKept(s, step);
      hide Do;
    }
  }

  lemma RoutedStep(s: State, step: Step)
    requires Enabled(s, step) && InOrder(s)
    ensures forall i :: i in Do(s, step).routed ==> i < |Do(s, step).inbox| && InTurn(Do(s, step).inbox[i].message)
  {
    InboxKept(s, step);
    if step.RouteMessage? {
      RouteFrame(s, step.a);
      hide RouteStep;
    } else {
      HistoryFrame(s, step);
      hide Do;
    }
  }

  lemma OutstandingRoute(s: State, a: Actor)
    requires Enabled(s, RouteMessage(a)) && s.reg.queuedRoutes == Outstanding(s)
    ensures RouteStep(s, a).reg.queuedRoutes == Outstanding(RouteStep(s, a))
  {
    UnroutedRoute(s, a);
    RouteFrame(s, a);
    RouteEffect(s, a);
    hide RouteStep, RouteIndices, Unrouted;
  }

  lemma OutstandingStart(s: State, a: Actor)
    requires Enabled(s, StartRequest(a)) && s.reg.queuedRoutes == Outstanding(s)
    ensures StartStep(s, a).reg.queuedRoutes == Outstanding(StartStep(s, a))
  {
    UnroutedStart(s, a);
    StartFrame(s, a);
    hide StartStep, RouteIndices, Unrouted;
  }

  lemma OutstandingTask(s: State, step: Step)
    requires Enabled(s, step) && MovesTask(step) && s.reg.queuedRoutes == Outstanding(s)
    ensures Do(s, step).reg.queuedRoutes == Outstanding(Do(s, step))
  {
    ReaderFrame(s, step);
    DrainerFrame(s, step);
    QueueFrame(s, step);
    TableFrame(s, step);
    hide Do, RouteIndices;
  }

  lemma OutstandingReader(s: State, step: Step)
    requires Enabled(s, step) && (step.Receive? || step.CheckQueue? || step.TakeSlot? || step.PostRoute? || step.RefuseRequest?)
    requires s.reg.queuedRoutes == Outstanding(s)
    ensures Do(s, step).reg.queuedRoutes == Outstanding(Do(s, step))
  {
    if step.PostRoute? { RoutesPush(s.strand, Route(s.reader.i, s.reader.n, s.reader.bytes)); }
    hide RouteIndices;
  }

  lemma OutstandingDrainer(s: State, step: Step)
    requires Enabled(s, step) && (step.TakeItem? || step.EndHandler? || step.ReleaseBytes? || step.FinishQueued?)
    requires s.reg.queuedRoutes == Outstanding(s)
    ensures Do(s, step).reg.queuedRoutes == Outstanding(Do(s, step))
  {
    if step.TakeItem? {
      assert RouteIndices(s.strand) == (if s.strand[0].Route? then [s.strand[0].i] else []) + RouteIndices(s.strand[1..]);
    }
    hide RouteIndices;
  }

  lemma OutstandingStep(s: State, step: Step)
    requires Enabled(s, step) && s.reg.queuedRoutes == Outstanding(s)
    ensures Do(s, step).reg.queuedRoutes == Outstanding(Do(s, step))
  {
    hide Outstanding, RouteStep, StartStep;
    if step.RouteMessage? {
      OutstandingRoute(s, step.a);
    } else if step.StartRequest? {
      OutstandingStart(s, step.a);
    } else if MovesTask(step) {
      OutstandingTask(s, step);
    } else if step.TakeItem? || step.EndHandler? || step.ReleaseBytes? || step.FinishQueued? {
      OutstandingDrainer(s, step);
    } else {
      OutstandingReader(s, step);
    }
  }

  // Only the read loop queues payloads, so nothing is queued while it routes
  // one itself.
  lemma DirectStep(s: State, step: Step)
    requires Enabled(s, step) && InOrder(s)
    ensures DirectAlone(Do(s, step))
  {
    InboxKept(s, step);
    if MovesReader(step) {
      if step.RouteMessage? {
        RouteFrame(s, step.a);
        RouteEffect(s, step.a);
      }
      hide RouteStep, Turns, Outstanding;
    } else {
      ReaderFrame(s, step);
      if step.RouteMessage? {
        RouteFrame(s, step.a);
      } else {
        TableFrame(s, step);
      }
      hide RouteStep, StartStep, Turns, Outstanding;
    }
  }

  lemma InOrderStep(s: State, step: Step)
    requires Enabled(s, step) && InOrder(s)
    ensures InOrder(Do(s, step))
  {
    TurnsStep(s, step);
    RoutedStep(s, step);
    OutstandingStep(s, step);
    DirectStep(s, step);
    hide Do, Turns, Outstanding, DirectAlone;
  }

  lemma {:induction false} OrderedRun(states: seq<State>, k: nat)
    requires IsRun(states) && k < |states|
    ensures InOrder(states[k])
  {
    if k > 0 {
      OrderedRun(states, k - 1);
      assert Follows(states[k - 1], states[k]);
      var step :| Enabled(states[k - 1], step) && Do(states[k - 1], step) == states[k];
      InOrderStep(states[k - 1], step);
    }
  }

  // Everything but inline notifications and unparsable payloads is routed in
  // arrival order: the routed messages are an initial part, in order, of all
  // those that arrived and are not done away with, and none is skipped.
  lemma RoutedInArrivalOrder(states: seq<State>, k: nat, i: nat, j: nat)
    requires IsRun(states) && k < |states|
    requires i < j < |states[k].inbox| && j in states[k].routed
    requires var m := states[k].inbox[i].message; m.Request? || m.Notification? || m.Rejected? || (m.Silent? && !m.isInline)
    ensures Ascending(states[k].routed)
    ensures i in states[k].routed
  {
    var s := states[k];
    OrderedRun(states, k);
    assert i in Turns(s);
    AscendingParts(s.routed, Unrouted(s));
  }

  lemma AscendingParts(p: seq<nat>, q: seq<nat>)
    requires Ascending(p + q)
    ensures Ascending(p)
    ensures forall i, j :: i in p && j in q ==> i < j
  {
    forall a, b | 0 <= a < b < |p| ensures p[a] < p[b] {
      assert (p + q)[a] < (p + q)[b];
    }
    forall i, j | i in p && j in q ensures i < j {
      var a :| 0 <= a < |p| && p[a] == i;
      var b :| 0 <= b < |q| && q[b] == j;
      assert (p + q)[a] < (p + q)[|p| + b];
    }
  }

  // ----- the strand's second stage ------------------------------------------

  // Handlers and launches on the notification strand, in post order.
  function SecondStage(items: seq<Item>): seq<nat> {
    if items == [] then []
    else if items[0].Route? then SecondStage(items[1..])
    else [items[0].i] + SecondStage(items[1..])
  }

  // The request an actor has registered and not posted yet is the last one
  // routed.
  ghost predicate LatestRouted(s: State, i: nat) {
    s.routed != [] && i == s.routed[|s.routed| - 1]
  }

  predicate Starting(s: State, i: nat) {
    s.reader == Routes(AtStart(i)) || (s.drainer.Drains? && s.drainer.r == AtStart(i))
  }

  ghost predicate StartsLatest(s: State) {
    forall i: nat :: Starting(s, i) ==> LatestRouted(s, i)
  }

  ghost predicate PostedInOrder(s: State) {
    && Ascending(SecondStage(s.strand)) && Ascending(s.serial)
    && (forall i :: i in SecondStage(s.strand) ==> i in s.routed)
    && (forall i :: i in s.serial ==> i in s.routed)
  }

  // Everything held in the second stage or as a task has been routed.
  ghost predicate HeldAreRouted(s: State) {
    forall h: nat :: Holds(s, h) ==> h in s.routed
  }

  ghost predicate IsClosed(s: State, i: nat) {
    exists c :: c in s.closed && c.i == i
  }

  predicate IsNotification(s: State, i: nat) {
    i < |s.inbox| && s.inbox[i].message.Notification?
  }

  predicate IsAfter(s: State, i: nat) {
    IsRequest(s, i) && s.inbox[i].message.mode == AfterNotifications
  }

  // Every Queued notification before request i has run.
  ghost predicate NotificationsRan(s: State, i: nat) {
    forall q: nat :: q < i && IsNotification(s, q) ==> IsClosed(s, q)
  }

  ghost predicate Launched(s: State) {
    forall i: nat :: IsAfter(s, i) && (i in s.ready || i in s.running) ==> NotificationsRan(s, i)
  }

  ghost predicate Staged(s: State) {
    Sound(s) && InOrder(s) && StartsLatest(s) && PostedInOrder(s) && HeldAreRouted(s) && Launched(s)
  }

  lemma {:induction false} SecondPush(items: seq<Item>, item: Item)
    ensures SecondStage(items + [item]) == SecondStage(items) + if item.Route? then [] else [item.i]
  {
    if items == [] {
      assert items + [item] == [item];
    } else {
      SecondPush(items[1..], item);
      assert (items + [item])[1..] == items[1..] + [item];
    }
  }

  lemma {:induction false} SecondIn(items: seq<Item>, item: Item)
    requires item in items && !item.Route?
    ensures item.i in SecondStage(items)
  {
    if items[0] != item { SecondIn(items[1..], item); }
  }

  lemma {:induction false} SecondFrom(items: seq<Item>, i: nat)
    requires i in SecondStage(items)
    ensures Handle(i) in items || Launch(i) in items
  {
    if items[0].Route? || items[0].i != i { SecondFrom(items[1..], i); }
  }

  // A message still to be routed is past everything routed.
  lemma UnroutedLater(s: State)
    requires InOrder(s)
    ensures Ascending(s.routed)
    ensures forall i, j :: i in s.routed && j in Unrouted(s) ==> i < j
  {
    AscendingParts(s.routed, Unrouted(s));
  }

  // Two actors are never both past routing a message in turn.
  lemma OneRouter(s: State, a: Actor, i: nat)
    requires Sound(s) && InOrder(s) && Enabled(s, RouteMessage(a)) && InTurn(s.inbox[Doing(s, a).i].message)
    ensures !Starting(s, i)
  {
  }

  lemma StartsLatestStep(s: State, step: Step)
    requires Enabled(s, step) && Staged(s)
    ensures StartsLatest(Do(s, step))
  {
    var t := Do(s, step);
    forall i: nat | Starting(t, i) ensures LatestRouted(t, i) {
      StartingStep(s, step, i);
      if step.RouteMessage? {
        RouteFrame(s, step.a);
        if InTurn(s.inbox[Doing(s, step.a).i].message) { OneRouter(s, step.a, i); }
      } else {
        HistoryFrame(s, step);
      }
      hide Do, Sound, InOrder;
    }
  }

  lemma StartingRoute(s: State, a: Actor, i: nat)
    requires Enabled(s, RouteMessage(a)) && Starting(RouteStep(s, a), i)
    ensures Starting(s, i) || (i == Doing(s, a).i && s.inbox[i].message.Request?)
  {
    RouteFrame(s, a);
    RouteEffect(s, a);
    hide RouteStep;
  }

  lemma StartingOther(s: State, step: Step, i: nat)
    requires Enabled(s, step) && !step.RouteMessage? && !MovesTask(step) && Starting(Do(s, step), i)
    ensures Starting(s, i)
  {
    if step.StartRequest? {
      StartFrame(s, step.a);
      hide StartStep;
    } else if MovesReader(step) {
      DrainerFrame(s, step);
    } else {
      ReaderFrame(s, step);
    }
  }

  lemma StartingTask(s: State, step: Step, i: nat)
    requires Enabled(s, step) && MovesTask(step) && Starting(Do(s, step), i)
    ensures Starting(s, i)
  {
    ReaderFrame(s, step);
    DrainerFrame(s, step);
    hide Do;
  }

  lemma StartingStep(s: State, step: Step, i: nat)
    requires Enabled(s, step) && Starting(Do(s, step), i)
    ensures Starting(s, i) || (step.RouteMessage? && i == Doing(s, step.a).i && s.inbox[i].message.Request?)
  {
    hide Starting, RouteStep, StartStep;
    if step.RouteMessage? {
      StartingRoute(s, step.a, i);
    } else if MovesTask(step) {
      StartingTask(s, step, i);
    } else {
      StartingOther(s, step, i);
    }
  }

  lemma HeldAreRoutedStep(s: State, step: Step)
    requires Enabled(s, step) && Staged(s)
    ensures HeldAreRouted(Do(s, step))
  {
    var t := Do(s, step);
    forall h: nat | Holds(t, h) ensures h in t.routed {
      HoldsStep(s, step, h);
      if step.RouteMessage? {
        RouteFrame(s, step.a);
      } else {
        HistoryFrame(s, step);
      }
      hide Do, Sound, InOrder, Holds;
    }
  }

  lemma AscendingPush(q: seq<nat>, i: nat)
    requires Ascending(q) && forall j :: j in q ==> j < i
    ensures Ascending(q + [i])
  {
    assert forall a :: 0 <= a < |q| ==> q[a] in q;
  }

  lemma BelowLatest(s: State, q: seq<nat>, i: nat)
    requires Ascending(s.routed) && LatestRouted(s, i)
    requires forall j :: j in q ==> j in s.routed && j != i
    ensures forall j :: j in q ==> j < i
  {
    forall j | j in q ensures j < i {
      var a :| 0 <= a < |s.routed| && s.routed[a] == j;
    }
  }

  // A request about to be posted is not posted yet.
  lemma StartingElsewhere(s: State, a: Actor)
    requires Sound(s) && Enabled(s, StartRequest(a))
    ensures Doing(s, a).i !in SecondStage(s.strand) && Doing(s, a).i !in s.serial
  {
    var i := Doing(s, a).i;
    assert Places(s, i) <= 1;
    SerialIn(s.serial, i);
    if i in SecondStage(s.strand) {
      SecondFrom(s.strand, i);
      PlacedTwice(s, i);
    }
  }

  lemma PlacedTwice(s: State, i: nat)
    ensures Handle(i) in s.strand || Launch(i) in s.strand ==> ItemsAt(s.strand, i) > 0
  {
    if Handle(i) in s.strand { ItemIn(s.strand, Handle(i)); }
    if Launch(i) in s.strand { ItemIn(s.strand, Launch(i)); }
  }

  lemma PostedStart(s: State, a: Actor)
    requires Enabled(s, StartRequest(a)) && Staged(s)
    ensures PostedInOrder(StartStep(s, a))
  {
    var i := Doing(s, a).i;
    StartFrame(s, a);
    UnroutedLater(s);
    StartingElsewhere(s, a);
    assert Starting(s, i);
    BelowLatest(s, SecondStage(s.strand), i);
    BelowLatest(s, s.serial, i);
    AscendingPush(SecondStage(s.strand), i);
    AscendingPush(s.serial, i);
    SecondPush(s.strand, Launch(i));
    hide StartStep, Sound, InOrder, SecondStage;
  }

  lemma PostedFrom(s: State, t: State, i: nat)
    requires PostedInOrder(s) && (forall j :: j in SecondStage(s.strand) ==> j < i)
    requires t.serial == s.serial && (t.routed == s.routed || t.routed == s.routed + [i])
    requires t.strand == s.strand || (t.strand == s.strand + [Handle(i)] && t.routed == s.routed + [i])
    ensures PostedInOrder(t)
  {
    AscendingPush(SecondStage(s.strand), i);
    SecondPush(s.strand, Handle(i));
    hide SecondStage;
  }

  lemma PostedRoute(s: State, a: Actor)
    requires Enabled(s, RouteMessage(a)) && Staged(s)
    ensures PostedInOrder(RouteStep(s, a))
  {
    SecondBefore(s, a);
    RouteFrame(s, a);
    RouteEffect(s, a);
    hide RouteStep, PostedInOrder, Sound, InOrder, SecondStage, Unrouted, StartsLatest, HeldAreRouted, Launched;
    PostedFrom(s, RouteStep(s, a), Doing(s, a).i);
  }

  // What is in the second stage came before what is being routed.
  lemma SecondBefore(s: State, a: Actor)
    requires Enabled(s, RouteMessage(a)) && Staged(s)
    ensures forall j :: j in SecondStage(s.strand) ==> j < Doing(s, a).i
  {
    UnroutedLater(s);
    assert Doing(s, a).i in Unrouted(s);
  }

  lemma PostedLane(s: State, k: nat)
    requires Enabled(s, LaneTake(k)) && PostedInOrder(s)
    ensures PostedInOrder(Do(s, LaneTake(k)))
  {
    DropKeeps(s.serial, Do(s, LaneTake(k)).serial, k);
    hide FirstOfLane, SecondStage;
  }

  lemma PostedQueue(s: State, step: Step)
    requires Enabled(s, step) && Staged(s) && (step.PostRoute? || step.TakeItem?)
    ensures PostedInOrder(Do(s, step))
  {
    if step.PostRoute? {
      SecondPush(s.strand, Route(s.reader.i, s.reader.n, s.reader.bytes));
    } else {
      SecondPop(s.strand);
    }
    hide SecondStage, Sound, InOrder;
  }

  lemma PostedKept(s: State, step: Step)
    requires Enabled(s, step) && PostedInOrder(s) && !step.RouteMessage? && !step.StartRequest?
    requires !step.PostRoute? && !step.TakeItem? && !step.LaneTake? && !step.EndHandler?
    ensures PostedInOrder(Do(s, step))
  {
    QueueFrame(s, step);
    HistoryFrame(s, step);
    if step.RefuseRequest? || step.ReleaseBytes? || step.FinishQueued? || MovesReader(step) {
      hide SecondStage;
    } else {
      DrainerFrame(s, step);
      hide SecondStage, Do;
    }
  }

  lemma PostedHandled(s: State)
    requires Enabled(s, EndHandler) && PostedInOrder(s)
    ensures PostedInOrder(Do(s, EndHandler))
  {
  }

  lemma PostedStep(s: State, step: Step)
    requires Enabled(s, step) && Staged(s)
    ensures PostedInOrder(Do(s, step))
  {
    hide PostedInOrder, RouteStep, StartStep, Sound, InOrder;
    if step.RouteMessage? {
      PostedRoute(s, step.a);
    } else if step.StartRequest? {
      PostedStart(s, step.a);
    } else if step.PostRoute? || step.TakeItem? {
      PostedQueue(s, step);
    } else if step.LaneTake? {
      PostedLane(s, step.i);
    } else if step.EndHandler? {
      PostedHandled(s);
    } else {
      PostedKept(s, step);
      hide Do;
    }
  }

  lemma SecondPop(items: seq<Item>)
    requires items != [] && Ascending(SecondStage(items))
    ensures Ascending(SecondStage(items[1..]))
    ensures forall i :: i in SecondStage(items[1..]) ==> i in SecondStage(items)
    ensures !items[0].Route? ==> forall i :: i in SecondStage(items[1..]) ==> items[0].i < i
  {
    var rest := SecondStage(items[1..]);
    if !items[0].Route? {
      assert SecondStage(items) == [items[0].i] + rest;
      AscendingTail(items[0].i, rest);
      hide SecondStage;
    }
  }

  lemma AscendingTail(x: nat, q: seq<nat>)
    requires Ascending([x] + q)
    ensures Ascending(q) && forall i :: i in q ==> x < i
  {
    AscendingParts([x], q);
    assert x in [x];
    forall a, b | 0 <= a < b < |q| ensures q[a] < q[b] {
      assert ([x] + q)[a + 1] < ([x] + q)[b + 1];
    }
  }

  // ----- notifications before the requests behind them ----------------------

  lemma {:induction false} ItemsHold(items: seq<Item>, i: nat)
    requires ItemsAt(items, i) > 0
    ensures exists item :: item in items && item.i == i
  {
    if items[0].i == i {
      assert items[0] in items;
    } else {
      ItemsHold(items[1..], i);
      var item :| item in items[1..] && item.i == i;
      assert item in items;
    }
  }

  lemma {:induction false} ClosedHolds(closed: seq<Closing>, i: nat)
    requires ClosedAt(closed, i) > 0
    ensures exists c :: c in closed && c.i == i
  {
    if closed[0].i == i {
      assert closed[0] in closed;
    } else {
      ClosedHolds(closed[1..], i);
      var c :| c in closed[1..] && c.i == i;
      assert c in closed;
    }
  }

  lemma {:induction false} RouteIn(items: seq<Item>, item: Item)
    requires item in items && item.Route?
    ensures item.i in RouteIndices(items)
  {
    if items[0] != item { RouteIn(items[1..], item); }
  }

  // A notification routed before the request at the head of the strand, with
  // the drain idle, is nowhere but done.
  lemma HeadLaunchWaits(s: State, q: nat)
    requires Staged(s) && s.drainer == Idle && s.strand != [] && s.strand[0].Launch?
    requires q < s.strand[0].i && IsNotification(s, q)
    ensures IsClosed(s, q)
  {
    var i := s.strand[0].i;
    UnroutedLater(s);
    assert i in SecondStage(s.strand);
    assert q in Turns(s);
    assert q !in Unrouted(s);
    SecondPop(s.strand);
    assert Places(s, q) == 1;
    if ItemsAt(s.strand, q) > 0 {
      ItemsHold(s.strand, q);
      var item :| item in s.strand && item.i == q;
      assert ItemTyped(s, item);
      if item.Route? { RouteIn(s.strand, item); }
      assert s.strand == [s.strand[0]] + s.strand[1..];
      if item in s.strand[1..] && !item.Route? { SecondIn(s.strand[1..], item); }
      assert false;
    }
    NotATask(s, q);
    ClosedHolds(s.closed, q);
  }

  lemma NotATask(s: State, q: nat)
    requires Sound(s) && IsNotification(s, q) && s.drainer == Idle && q !in ReaderWaits(s.reader)
    ensures ReaderAt(s.reader, q) == 0 && DrainerAt(s.drainer, q) == 0
    ensures q !in s.ready && SerialAt(s.serial, q) == 0 && q !in s.running
  {
    SerialIn(s.serial, q);
  }

  lemma ClosedStays(s: State, step: Step, q: nat)
    requires Enabled(s, step) && IsClosed(s, q)
    ensures IsClosed(Do(s, step), q)
  {
    var c :| c in s.closed && c.i == q;
    if !Closes(step) {
      ClosedFrame(s, step);
      hide Do;
    } else if step.RouteMessage? {
      RouteEffect(s, step.a);
      hide RouteStep;
    }
    assert c in Do(s, step).closed;
  }

  // Which AfterNotifications requests a step makes runnable.
  lemma RunnableActor(s: State, step: Step, i: nat)
    requires Enabled(s, step) && !MovesTask(step) && IsAfter(s, i) && (i in Do(s, step).ready || i in Do(s, step).running)
    ensures i in s.ready || i in s.running || (step.TakeItem? && s.strand[0] == Launch(i))
  {
    TaskFrame(s, step);
    if step.RouteMessage? {
      RouteFrame(s, step.a);
    } else if step.StartRequest? {
      StartFrame(s, step.a);
    } else if !step.TakeItem? {
      QueueFrame(s, step);
      hide Do;
    }
    hide RouteStep, StartStep;
  }

  lemma RunnableTask(s: State, step: Step, i: nat)
    requires Enabled(s, step) && MovesTask(step) && IsAfter(s, i) && (i in Do(s, step).ready || i in Do(s, step).running)
    ensures i in s.ready || i in s.running
  {
    if step.LaneTake? {
      LaneIsSerial(s, step.i);
      hide FirstOfLane;
    }
  }

  lemma RunnableStep(s: State, step: Step, i: nat)
    requires Enabled(s, step) && IsAfter(s, i)
    requires i in Do(s, step).ready || i in Do(s, step).running
    ensures i in s.ready || i in s.running || (step.TakeItem? && s.strand[0] == Launch(i))
  {
    hide Do, IsAfter;
    if MovesTask(step) {
      RunnableTask(s, step, i);
    } else {
      RunnableActor(s, step, i);
    }
  }

  lemma LaunchedStep(s: State, step: Step)
    requires Enabled(s, step) && Staged(s)
    ensures Launched(Do(s, step))
  {
    var t := Do(s, step);
    InboxKept(s, step);
    forall i: nat | IsAfter(t, i) && (i in t.ready || i in t.running) ensures NotificationsRan(t, i) {
      NewIsNotATask(s, step, i);
      RunnableStep(s, step, i);
      forall q: nat | q < i && IsNotification(t, q) ensures IsClosed(t, q) {
        if step.TakeItem? && s.strand[0] == Launch(i) {
          HeadLaunchWaits(s, q);
        } else {
          assert NotificationsRan(s, i);
        }
        ClosedStays(s, step, q);
      }
    }
  }

  lemma NewIsNotATask(s: State, step: Step, i: nat)
    requires Enabled(s, step) && Sound(s)
    requires i in Do(s, step).ready || i in Do(s, step).running
    ensures i < |s.inbox|
  {
    if step.Receive? {
      QueueFrame(s, step);
      TaskFrame(s, step);
    } else {
      InboxKept(s, step);
      ReadyStaysTyped(s, step);
      TasksTyped(s, step);
      assert ReadyTyped(Do(s, step), i) || i in Do(s, step).running;
    }
    hide Do, Conserved, Listed;
  }

  lemma StagedStep(s: State, step: Step)
    requires Enabled(s, step) && Staged(s)
    ensures Staged(Do(s, step))
  {
    SoundStep(s, step);
    InOrderStep(s, step);
    StartsLatestStep(s, step);
    PostedStep(s, step);
    HeldAreRoutedStep(s, step);
    LaunchedStep(s, step);
    hide Do, Sound, InOrder, StartsLatest, PostedInOrder, HeldAreRouted, Launched;
  }

  lemma {:induction false} StagedRun(states: seq<State>, k: nat)
    requires IsRun(states) && k < |states|
    ensures Staged(states[k])
  {
    if k == 0 {
      SoundInitially();
    } else {
      StagedRun(states, k - 1);
      assert Follows(states[k - 1], states[k]);
      var step :| Enabled(states[k - 1], step) && Do(states[k - 1], step) == states[k];
      StagedStep(states[k - 1], step);
    }
  }

  // An AfterNotifications request that is ready to run or running comes after
  // every Queued notification received before it.
  lemma RunsAfterNotifications(states: seq<State>, k: nat, i: nat, q: nat)
    requires IsRun(states) && k < |states|
    requires IsAfter(states[k], i) && (i in states[k].ready || i in states[k].running)
    requires q < i && IsNotification(states[k], q)
    ensures IsClosed(states[k], q)
  {
    StagedRun(states, k);
    assert NotificationsRan(states[k], i);
  }

  // ----- serial strands -----------------------------------------------------

  predicate Refusing(s: State, i: nat) {
    s.reader == Routes(AtRefuse(i)) || (s.drainer.Drains? && s.drainer.r == AtRefuse(i))
  }

  predicate SharesLane(s: State, i: nat, j: nat) {
    IsSerialIndex(s, i) && IsSerialIndex(s, j) && SameLane(s.inbox[i].message, s.inbox[j].message)
  }

  // Every earlier request of the same lane is done, or refused for its id.
  ghost predicate LaneClear(s: State, i: nat) {
    forall j: nat :: j < i && SharesLane(s, j, i) ==> IsClosed(s, j) || Refusing(s, j)
  }

  ghost predicate LanesInOrder(s: State) {
    forall i: nat :: i in s.running && IsSerialIndex(s, i) ==> LaneClear(s, i)
  }

  // A serial request that is neither done nor refused, routed before one that
  // may start, would be ahead of it in its lane.
  lemma FirstIsClear(s: State, k: nat, j: nat)
    requires Staged(s) && Enabled(s, LaneTake(k))
    requires j < s.serial[k] && SharesLane(s, j, s.serial[k])
    ensures IsClosed(s, j) || Refusing(s, j)
  {
    NotAhead(s, k, j);
    NotStarting(s, s.serial[k], j);
    assert Places(s, j) == 1;
    SerialNotOnStrand(s, j);
    SerialIn(s.serial, j);
    assert !ReadyTyped(s, j);
    hide FirstOfLane, InOrder, ItemsAt, SerialAt, PostedInOrder, HeldAreRouted, Launched, StartsLatest;
    if !Refusing(s, j) {
      ClosedHolds(s.closed, j);
    }
  }

  lemma NotAhead(s: State, k: nat, j: nat)
    requires Enabled(s, LaneTake(k)) && j < s.serial[k] && SharesLane(s, j, s.serial[k]) && PostedInOrder(s)
    ensures j !in s.serial && j !in s.running
  {
    forall p | 0 <= p < |s.serial| ensures s.serial[p] != j {
    }
  }

  lemma NotStarting(s: State, i: nat, j: nat)
    requires Staged(s) && i in s.serial && j < i && SharesLane(s, j, i)
    ensures !Starting(s, j) && j !in Unrouted(s)
  {
    UnroutedLater(s);
    assert j in Turns(s);
    if Starting(s, j) { LatestIsLast(s, j, i); }
  }

  lemma LatestIsLast(s: State, j: nat, i: nat)
    requires Ascending(s.routed) && LatestRouted(s, j) && i in s.routed
    ensures i <= j
  {
    var a :| 0 <= a < |s.routed| && s.routed[a] == i;
  }

  lemma SerialNotOnStrand(s: State, j: nat)
    requires Sound(s) && IsSerialIndex(s, j) && j !in Unrouted(s)
    ensures ItemsAt(s.strand, j) == 0
  {
    if ItemsAt(s.strand, j) > 0 {
      ItemsHold(s.strand, j);
      var item :| item in s.strand && item.i == j;
      assert ItemTyped(s, item);
      if item.Route? { RouteIn(s.strand, item); }
    }
  }

  lemma RefusingStays(s: State, step: Step, j: nat)
    requires Enabled(s, step) && Refusing(s, j)
    ensures Refusing(Do(s, step), j) || IsClosed(Do(s, step), j)
  {
    if step.RefuseRequest? {
      assert Closing(Doing(s, step.a).i, InUse) in Do(s, step).closed;
    } else {
      if !MovesReader(step) { ReaderFrame(s, step); }
      if !MovesDrainer(step) { DrainerFrame(s, step); }
    }
    hide RouteStep, StartStep;
  }

  lemma NewlyRunning(s: State, step: Step, i: nat)
    requires Enabled(s, step) && Sound(s) && i in Do(s, step).running && IsSerialIndex(s, i)
    ensures i in s.running || (step.LaneTake? && s.serial[step.i] == i)
  {
    if !MovesTask(step) {
      TaskFrame(s, step);
      hide Do, Sound;
    } else {
      if step.PoolTake? { assert ReadyTyped(s, step.i); }
      hide Sound, Enabled;
      NewTask(s, step, i);
    }
  }

  lemma NewTask(s: State, step: Step, i: nat)
    requires Enabled(s, step) && MovesTask(step) && i in Do(s, step).running
    ensures i in s.running || (step.PoolTake? && i == step.i) || (step.LaneTake? && s.serial[step.i] == i)
  {
    hide FirstOfLane;
  }

  lemma LanesInOrderStep(s: State, step: Step)
    requires Enabled(s, step) && Staged(s) && LanesInOrder(s)
    ensures LanesInOrder(Do(s, step))
  {
    var t := Do(s, step);
    InboxKept(s, step);
    forall i: nat | i in t.running && IsSerialIndex(t, i) ensures LaneClear(t, i) {
      NewIsNotATask(s, step, i);
      NewlyRunning(s, step, i);
      forall j: nat | j < i && SharesLane(t, j, i) ensures IsClosed(t, j) || Refusing(t, j) {
        if step.LaneTake? && s.serial[step.i] == i {
          FirstIsClear(s, step.i, j);
        } else {
          assert LaneClear(s, i);
          assert SharesLane(s, j, i);
        }
        if Refusing(s, j) { RefusingStays(s, step, j); } else { ClosedStays(s, step, j); }
      }
    }
  }

  lemma {:induction false} LanesInOrderRun(states: seq<State>, k: nat)
    requires IsRun(states) && k < |states|
    ensures LanesInOrder(states[k])
  {
    if k > 0 {
      LanesInOrderRun(states, k - 1);
      StagedRun(states, k - 1);
      assert Follows(states[k - 1], states[k]);
      var step :| Enabled(states[k - 1], step) && Do(states[k - 1], step) == states[k];
      LanesInOrderStep(states[k - 1], step);
    }
  }

  // Serial requests of one mode and repository run in the order they arrived,
  // never two at once: while one runs, every earlier one is done or refused.
  lemma SerialInOrder(states: seq<State>, k: nat, i: nat, j: nat)
    requires IsRun(states) && k < |states| && i in states[k].running && j < i && i < |states[k].inbox|
    requires var m, o := states[k].inbox[i].message, states[k].inbox[j].message;
      m.Request? && o.Request? && m.mode == o.mode && m.repo == o.repo && (m.mode == Serial || m.mode == SerialNetwork)
    ensures IsClosed(states[k], j) || Refusing(states[k], j)
    ensures j !in states[k].running && j !in states[k].serial
  {
    var s := states[k];
    LanesInOrderRun(states, k);
    StagedRun(states, k);
    assert LaneClear(s, i);
    assert SharesLane(s, j, i);
    assert Places(s, j) == 1;
    SerialIn(s.serial, j);
    if IsClosed(s, j) {
      var c :| c in s.closed && c.i == j;
      ClosedIn(s.closed, c);
    }
  }

  predicate OtherLane(s: State, i: nat, j: nat) {
    && IsRequest(s, i) && IsRequest(s, j)
    && (s.inbox[i].message.mode != s.inbox[j].message.mode || s.inbox[i].message.repo != s.inbox[j].message.repo)
  }

  // Nothing else holds such a request up: it can start exactly when all that
  // is posted ahead of it or runs is of another mode or repository.
  lemma OnlyOwnLaneWaits(states: seq<State>, k: nat, n: nat)
    requires IsRun(states) && k < |states| && n < |states[k].serial|
    ensures Enabled(states[k], LaneTake(n)) <==>
      var s := states[k];
      && (forall j :: 0 <= j < n ==> OtherLane(s, s.serial[j], s.serial[n]))
      && (forall h :: h in s.running ==> OtherLane(s, h, s.serial[n]))
  {
    var s := states[k];
    SoundRun(states, k);
    hide IsRun;
    WaitsForLane(s, n);
  }

  lemma WaitsForLane(s: State, n: nat)
    requires Sound(s) && n < |s.serial|
    ensures Enabled(s, LaneTake(n)) <==>
      && (forall j :: 0 <= j < n ==> OtherLane(s, s.serial[j], s.serial[n]))
      && (forall h :: h in s.running ==> OtherLane(s, h, s.serial[n]))
  {
    hide Conserved, Listed;
    assert forall j :: 0 <= j < |s.serial| ==> IsSerialIndex(s, s.serial[j]);
  }
}
