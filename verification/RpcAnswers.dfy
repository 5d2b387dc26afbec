/** Every message is in exactly one place, so every request is answered once:
    conservation over all steps of the dispatcher. */
module RpcAnswers {
  import opened Arithmetic
  import opened RpcRegistry
  import opened RpcDispatcher
  import opened RpcFrames

  // ----- conservation -------------------------------------------------------

  function ReaderAt(r: Reader, i: nat): nat {
    match r
    case Waiting => 0
    case Checking(j) => One(i == j)
    case Queueing(j, _) => One(i == j)
    case Posting(j, _, _) => One(i == j)
    case Routes(m) => One(i == m.i)
  }

  function DrainerAt(d: Drainer, i: nat): nat {
    match d
    case Drains(m, _) => One(i == m.i)
    case Handling(j) => One(i == j)
    case _ => 0
  }

  function ItemsAt(items: seq<Item>, i: nat): nat {
    if items == [] then 0 else One(items[0].i == i) + ItemsAt(items[1..], i)
  }

  function SerialAt(serial: seq<nat>, i: nat): nat {
    if serial == [] then 0 else One(serial[0] == i) + SerialAt(serial[1..], i)
  }

  function ClosedAt(closed: seq<Closing>, i: nat): nat {
    if closed == [] then 0 else One(closed[0].i == i) + ClosedAt(closed[1..], i)
  }

  // The number of places message i is held in, done or not.
  function Places(s: State, i: nat): nat {
    ReaderAt(s.reader, i) + DrainerAt(s.drainer, i) + ItemsAt(s.strand, i)
    + s.ready[i] + SerialAt(s.serial, i) + One(i in s.running) + ClosedAt(s.closed, i)
  }

  // Every message received is in exactly one place.
  ghost predicate Conserved(s: State) {
    forall i: nat :: Places(s, i) == One(i < |s.inbox|)
  }

  lemma {:induction false} ItemPush(items: seq<Item>, item: Item, i: nat)
    ensures ItemsAt(items + [item], i) == ItemsAt(items, i) + One(item.i == i)
  {
    if items == [] {
      assert items + [item] == [item];
    } else {
      ItemPush(items[1..], item, i);
      assert (items + [item])[1..] == items[1..] + [item];
    }
  }

  lemma ItemPop(items: seq<Item>, i: nat)
    requires items != []
    ensures ItemsAt(items, i) == One(items[0].i == i) + ItemsAt(items[1..], i)
  {
  }

  lemma {:induction false} ClosedPush(closed: seq<Closing>, c: Closing, i: nat)
    ensures ClosedAt(closed + [c], i) == ClosedAt(closed, i) + One(c.i == i)
  {
    if closed == [] {
      assert closed + [c] == [c];
    } else {
      ClosedPush(closed[1..], c, i);
      assert (closed + [c])[1..] == closed[1..] + [c];
    }
  }

  lemma {:induction false} SerialPush(serial: seq<nat>, j: nat, i: nat)
    ensures SerialAt(serial + [j], i) == SerialAt(serial, i) + One(j == i)
  {
    if serial == [] {
      assert serial + [j] == [j];
    } else {
      SerialPush(serial[1..], j, i);
      assert (serial + [j])[1..] == serial[1..] + [j];
    }
  }

  lemma {:induction false} SerialTake(serial: seq<nat>, k: nat, i: nat)
    requires k < |serial|
    ensures SerialAt(serial[..k] + serial[k + 1..], i) + One(serial[k] == i) == SerialAt(serial, i)
  {
    if k == 0 {
      assert serial[..0] + serial[1..] == serial[1..];
    } else {
      SerialTake(serial[1..], k - 1, i);
      assert (serial[..k] + serial[k + 1..])[1..] == serial[1..][..k - 1] + serial[1..][k..];
    }
  }

  lemma {:induction false} ItemIn(items: seq<Item>, item: Item)
    requires item in items
    ensures ItemsAt(items, item.i) > 0
  {
    if items[0] != item { ItemIn(items[1..], item); }
  }

  lemma {:induction false} SerialIn(serial: seq<nat>, i: nat)
    ensures i in serial <==> SerialAt(serial, i) > 0
  {
    if serial != [] { SerialIn(serial[1..], i); }
  }

  lemma {:induction false} ClosedIn(closed: seq<Closing>, c: Closing)
    requires c in closed
    ensures ClosedAt(closed, c.i) > 0
  {
    if closed[0] != c { ClosedIn(closed[1..], c); }
  }

  // A task about to start is not running already.
  lemma NotRunningYet(s: State, i: nat)
    requires Conserved(s) && (i in s.ready || i in s.serial)
    ensures i !in s.running
  {
    assert Places(s, i) <= 1;
    SerialIn(s.serial, i);
  }

  lemma LeavePlaces(s: State, a: Actor, i: nat)
    requires Busy(s, a)
    ensures Places(Leave(s, a), i) + One(Doing(s, a).i == i) == Places(s, i)
  {
  }

  lemma ClosePlaces(s: State, j: nat, how: Outcome, i: nat)
    ensures Places(Close(s, j, how), i) == Places(s, i) + One(i == j)
  {
    ClosedPush(s.closed, Closing(j, how), i);
    hide ItemsAt, SerialAt, ClosedAt;
  }

  lemma PostPlaces(s: State, item: Item, i: nat)
    ensures Places(s.(strand := s.strand + [item]), i) == Places(s, i) + One(i == item.i)
  {
    ItemPush(s.strand, item, i);
  }

  lemma EndPlaces(s: State, a: Actor, how: Outcome, i: nat)
    requires Busy(s, a)
    ensures Places(Leave(Close(s, Doing(s, a).i, how), a), i) == Places(s, i)
  {
    ClosePlaces(s, Doing(s, a).i, how, i);
    LeavePlaces(Close(s, Doing(s, a).i, how), a, i);
  }

  lemma ContinuePlaces(s: State, a: Actor, r: Routing, i: nat)
    requires Busy(s, a) && r.i == Doing(s, a).i
    ensures Places(Continue(s, a, r), i) == Places(s, i)
  {
    hide ItemsAt, SerialAt, ClosedAt;
  }

  lemma RegisterPlaces(s: State, a: Actor, id: int, arrival: Arrival, i: nat)
    requires Busy(s, a)
    ensures Places(RegisterStep(s, a, id, Doing(s, a).i, arrival), i) == Places(s, i)
  {
    var j := Doing(s, a).i;
    if id in s.reg.inflight {
      ContinuePlaces(s, a, AtRefuse(j), i);
    } else {
      var t := s.(reg := RegisterId(s.reg, id, j, arrival));
      var hit := id in s.reg.early && AppliesTo(s.reg.early[id], arrival);
      var u := if hit then t.(hits := s.hits + {(s.reg.early[id].cancel, j)}) else t;
      TablePlaces(s, t.reg, u.hits, i);
      hide RegisterId, Places;
      ContinuePlaces(u, a, AtStart(j), i);
    }
  }

  lemma TablePlaces(s: State, reg: Registry, hits: set<(nat, nat)>, i: nat)
    ensures Places(s.(reg := reg, hits := hits), i) == Places(s, i)
    ensures Places(s.(reg := reg), i) == Places(s, i)
  {
  }

  lemma HistoryPlaces(s: State, id: int, arrival: Arrival, c: nat, routed: seq<nat>, i: nat)
    ensures Places(s.(routed := routed), i) == Places(s, i)
    ensures Places(CancelStep(s, id, arrival, c), i) == Places(s, i)
  {
  }

  // An actor that routes a message closes it, posts it or keeps it.
  lemma RoutePlaces(s: State, a: Actor, i: nat)
    requires Enabled(s, RouteMessage(a))
    ensures Places(RouteStep(s, a), i) == Places(s, i)
  {
    hide Places, CalledOff, RegisterStep, CancelId;
    var j, arrival := Doing(s, a).i, Doing(s, a).arrival;
    var t := if InTurn(s.inbox[j].message) then s.(routed := s.routed + [j]) else s;
    HistoryPlaces(s, 0, arrival, j, s.routed + [j], i);
    assert Busy(t, a) && Doing(t, a).i == j;
    match s.inbox[j].message
    case Malformed => EndPlaces(t, a, Error, i);
    case Rejected => EndPlaces(t, a, Error, i);
    case Silent(_) => EndPlaces(t, a, Nothing, i);
    case Cancel(id) =>
      HistoryPlaces(t, id, arrival, j, [], i);
      EndPlaces(CancelStep(t, id, arrival, j), a, Nothing, i);
    case Notification =>
      PostPlaces(t, Handle(j), i);
      LeavePlaces(t.(strand := t.strand + [Handle(j)]), a, i);
    case Request(id, _, _) => RegisterPlaces(t, a, id, arrival, i);
  }

  lemma StartPlaces(s: State, a: Actor, i: nat)
    requires Enabled(s, StartRequest(a))
    ensures Places(StartStep(s, a), i) == Places(s, i)
  {
    var j := Doing(s, a).i;
    var t := Leave(s, a);
    LeavePlaces(s, a, i);
    PostPlaces(t, Launch(j), i);
    LanePlaces(t, j, i);
    hide Places, Leave;
  }

  lemma LanePlaces(s: State, j: nat, i: nat)
    ensures Places(s.(serial := s.serial + [j]), i) == Places(s, i) + One(i == j)
    ensures Places(s.(ready := s.ready + multiset{j}), i) == Places(s, i) + One(i == j)
  {
    SerialPush(s.serial, j, i);
    hide ItemsAt, SerialAt, ClosedAt;
  }

  lemma QueueingPlaces(s: State, step: Step, i: nat)
    requires Enabled(s, step) && (step.TakeSlot? || step.PostRoute?)
    ensures Places(Do(s, step), i) == Places(s, i)
  {
    if step.PostRoute? { ItemPush(s.strand, Route(s.reader.i, s.reader.n, s.reader.bytes), i); }
    hide ItemsAt, SerialAt, ClosedAt;
  }

  lemma CheckPlaces(s: State, i: nat)
    requires Enabled(s, CheckQueue)
    ensures Places(CheckStep(s), i) == Places(s, i)
  {
    ClosedPush(s.closed, Closing(s.reader.i, Error), i);
    hide ItemsAt, SerialAt, ClosedAt;
  }

  lemma ReaderPlaces(s: State, step: Step, i: nat)
    requires Enabled(s, step) && (step.CheckQueue? || step.TakeSlot? || step.PostRoute? || step.RefuseRequest?)
    ensures Places(Do(s, step), i) == Places(s, i)
  {
    if step.CheckQueue? {
      CheckPlaces(s, i);
    } else if step.RefuseRequest? {
      EndPlaces(s, step.a, InUse, i);
    } else {
      QueueingPlaces(s, step, i);
    }
    hide Places, CheckStep, Leave, Close;
  }

  lemma DrainerPlaces(s: State, step: Step, i: nat)
    requires Enabled(s, step) && (step.TakeItem? || step.EndHandler? || step.ReleaseBytes? || step.FinishQueued?)
    ensures Places(Do(s, step), i) == Places(s, i)
  {
    match step
    case TakeItem => ItemPop(s.strand, i);
    case EndHandler => ClosedPush(s.closed, Closing(s.drainer.i, Nothing), i);
    case ReleaseBytes =>
    case FinishQueued =>
    hide ItemsAt, SerialAt, ClosedAt;
  }

  lemma BegunPlaces(s: State, step: Step, i: nat)
    requires Conserved(s) && Enabled(s, step) && (step.PoolTake? || step.LaneTake?)
    ensures Places(Do(s, step), i) == Places(s, i)
  {
    NotRunningYet(s, if step.PoolTake? then step.i else s.serial[step.i]);
    if step.LaneTake? { SerialTake(s.serial, step.i, i); }
    hide ItemsAt, SerialAt, ClosedAt, FirstOfLane, Conserved;
  }

  lemma TaskPlaces(s: State, step: Step, i: nat)
    requires Conserved(s) && Enabled(s, step)
    requires step.PoolTake? || step.LaneTake? || step.LookUp? || step.EndWork? || step.EraseEntry? || step.SendAnswer?
    ensures Places(Do(s, step), i) == Places(s, i)
  {
    if step.PoolTake? || step.LaneTake? {
      BegunPlaces(s, step, i);
      hide Do, Places;
    } else {
      if step.SendAnswer? { ClosedPush(s.closed, Closing(step.i, s.running[step.i].how), i); }
      hide ItemsAt, SerialAt, ClosedAt, Conserved;
    }
  }

  // No step loses or duplicates a message.
  lemma PlacesKept(s: State, step: Step, i: nat)
    requires Conserved(s) && Enabled(s, step) && !step.Receive?
    ensures Places(Do(s, step), i) == Places(s, i)
  {
    hide Places, Conserved;
    if step.RouteMessage? {
      RoutePlaces(s, step.a, i);
    } else if step.StartRequest? {
      StartPlaces(s, step.a, i);
    } else if step.CheckQueue? || step.TakeSlot? || step.PostRoute? || step.RefuseRequest? {
      ReaderPlaces(s, step, i);
    } else if step.TakeItem? || step.EndHandler? || step.ReleaseBytes? || step.FinishQueued? {
      DrainerPlaces(s, step, i);
    } else {
      TaskPlaces(s, step, i);
    }
  }

  lemma ConservedStep(s: State, step: Step)
    requires Conserved(s) && Enabled(s, step)
    ensures Conserved(Do(s, step))
  {
    InboxKept(s, step);
    forall i: nat
      ensures Places(Do(s, step), i) == One(i < |Do(s, step).inbox|)
    {
      assert Places(s, i) == One(i < |s.inbox|);
      if !step.Receive? { PlacesKept(s, step, i); }
    }
  }
}
