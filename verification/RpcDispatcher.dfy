/** The dispatcher of engine/src/rpc/dispatcher.cpp as a transition system:
    the read loop, the drain of its notification strand, its serial strands
    and its pool tasks, one step per locked section or posted task. */
module RpcDispatcher {
  import opened RpcRegistry

  datatype Mode = Concurrent | Serial | SerialNetwork | AfterNotifications

  // What a payload parses to, as far as routing depends on it.
  datatype Message =
    | Malformed                                   // unparsable, or nested too deep
    | Rejected                                    // no method, unknown method or a non-integer id
    | Silent(isInline: bool)                      // a response, an unknown or an inline notification
    | Cancel(target: int)                         // $/cancelRequest
    | Notification                                // one whose handler is Queued
    | Request(id: int, mode: Mode, repo: string)

  datatype Payload = Payload(size: nat, message: Message)

  const INLINE_PARSE_LIMIT := 256 * 1024
  const MAX_DEFERRED_BYTES := 64 * 1024 * 1024

  // An actor inside routeMessage.
  datatype Routing =
    | AtMessage(i: nat, arrival: Arrival)
    | AtStart(i: nat)    // registered, its task not posted yet
    | AtRefuse(i: nat)   // its id is in use, the error not sent yet

  datatype Reader =
    | Waiting
    | Checking(i: nat)                         // before routesQueued()
    | Queueing(i: nat, bytes: nat)             // before queueRoute()
    | Posting(i: nat, n: nat, bytes: nat)      // before the post to the strand
    | Routes(r: Routing)

  // Tasks of the notification strand. `bytes` is the deferred-parse budget a
  // task gives back (0 for a payload that was parsed at once).
  datatype Item =
    | Route(i: nat, n: nat, bytes: nat)
    | Handle(i: nat)
    | Launch(i: nat)

  datatype Drainer =
    | Idle
    | Drains(r: Routing, bytes: nat)
    | Releasing(bytes: nat)
    | Finishing
    | Handling(i: nat)

  datatype Outcome = Nothing | Error | InUse | Result | Cancelled | Failed | Lost

  // A request task: popped, running its handler, about to erase its entry,
  // about to send its response.
  datatype Phase = Taken | Working | Erasing(how: Outcome) | Sending(how: Outcome)

  datatype Closing = Closing(i: nat, how: Outcome)

  datatype State = State(
    inbox: seq<Payload>,
    reader: Reader,
    deferredBytes: nat,
    reg: Registry,
    strand: seq<Item>,
    drainer: Drainer,
    serial: seq<nat>,           // posted to serial strands, in post order
    ready: multiset<nat>,       // posted to the pool
    running: map<nat, Phase>,
    closed: seq<Closing>,       // messages done with, and how they were answered
    // History: messages routed in turn, which cancel hit which request, and
    // the requests a cancel has been routed for.
    routed: seq<nat>,
    hits: set<(nat, nat)>,
    called: set<nat>)

  ghost function Initial(): State {
    State([], Waiting, 0, EMPTY, [], Idle, [], multiset{}, map[], [], [], {}, {})
  }

  predicate IsInline(m: Message) {
    m.Cancel? || (m.Silent? && m.isInline)
  }

  // Messages that must be routed in arrival order.
  predicate InTurn(m: Message) {
    !m.Malformed? && !IsInline(m)
  }

  predicate NeedsAnswer(m: Message) {
    m.Malformed? || m.Rejected? || m.Request?
  }

  predicate IsSerial(m: Message) {
    m.Request? && (m.mode == Serial || m.mode == SerialNetwork)
  }

  predicate SameLane(m: Message, o: Message)
    requires m.Request? && o.Request?
  {
    m.mode == o.mode && m.repo == o.repo
  }

  // ----- who holds what -----------------------------------------------------

  function RouteIndices(items: seq<Item>): seq<nat> {
    if items == [] then []
    else if items[0].Route? then [items[0].i] + RouteIndices(items[1..])
    else RouteIndices(items[1..])
  }

  function DrainerWaits(d: Drainer): seq<nat> {
    if d.Drains? && d.r.AtMessage? then [d.r.i] else []
  }

  function ReaderWaits(r: Reader): seq<nat> {
    match r
    case Waiting => []
    case Checking(i) => [i]
    case Queueing(i, _) => [i]
    case Posting(i, _, _) => [i]
    case Routes(m) => if m.AtMessage? then [m.i] else []
  }

  // Messages received and not routed yet, first to be routed first.
  function Unrouted(s: State): seq<nat> {
    DrainerWaits(s.drainer) + RouteIndices(s.strand) + ReaderWaits(s.reader)
  }

  // Requests whose in-flight entry exists.
  predicate Holds(s: State, h: nat) {
    || s.reader == Routes(AtStart(h))
    || (s.drainer.Drains? && s.drainer.r == AtStart(h))
    || Launch(h) in s.strand
    || h in s.serial
    || h in s.ready
    || (h in s.running && !s.running[h].Sending?)
  }

  // ----- steps --------------------------------------------------------------

  datatype Actor = TheReader | TheDrainer

  predicate Busy(s: State, a: Actor) {
    match a case TheReader => s.reader.Routes? case TheDrainer => s.drainer.Drains?
  }

  function Doing(s: State, a: Actor): Routing
    requires Busy(s, a)
  {
    match a case TheReader => s.reader.r case TheDrainer => s.drainer.r
  }

  function Continue(s: State, a: Actor, r: Routing): State
    requires Busy(s, a)
  {
    match a
    case TheReader => s.(reader := Routes(r))
    case TheDrainer => s.(drainer := Drains(r, s.drainer.bytes))
  }

  function Leave(s: State, a: Actor): State
    requires Busy(s, a)
  {
    match a
    case TheReader => s.(reader := Waiting)
    case TheDrainer => s.(drainer := Releasing(s.drainer.bytes))
  }

  function Close(s: State, i: nat, how: Outcome): State {
    s.(closed := s.closed + [Closing(i, how)])
  }

  datatype Step =
    | Receive(p: Payload)
    | CheckQueue
    | TakeSlot
    | PostRoute
    | RouteMessage(a: Actor)
    | StartRequest(a: Actor)
    | RefuseRequest(a: Actor)
    | TakeItem
    | EndHandler
    | ReleaseBytes
    | FinishQueued
    | PoolTake(i: nat)
    | LaneTake(i: nat)
    | LookUp(i: nat)
    | EndWork(i: nat, how: Outcome)
    | EraseEntry(i: nat)
    | SendAnswer(i: nat)

  // The serial strand of i runs one task at a time, in post order.
  predicate FirstOfLane(s: State, k: nat)
    requires k < |s.serial|
  {
    && IsSerialIndex(s, s.serial[k])
    && (forall j :: 0 <= j < k ==> IsSerialIndex(s, s.serial[j]) ==> !SameLane(s.inbox[s.serial[j]].message, s.inbox[s.serial[k]].message))
    && (forall h :: h in s.running && IsSerialIndex(s, h) ==> !SameLane(s.inbox[h].message, s.inbox[s.serial[k]].message))
  }

  predicate IsSerialIndex(s: State, i: nat) {
    i < |s.inbox| && IsSerial(s.inbox[i].message)
  }

  predicate Enabled(s: State, step: Step) {
    match step
    case Receive(_) => s.reader == Waiting
    case CheckQueue => s.reader.Checking? && s.reader.i < |s.inbox|
    case TakeSlot => s.reader.Queueing?
    case PostRoute => s.reader.Posting?
    case RouteMessage(a) => Busy(s, a) && Doing(s, a).AtMessage? && Doing(s, a).i < |s.inbox|
    case StartRequest(a) => Busy(s, a) && Doing(s, a).AtStart? && Doing(s, a).i < |s.inbox| && s.inbox[Doing(s, a).i].message.Request?
    case RefuseRequest(a) => Busy(s, a) && Doing(s, a).AtRefuse?
    case TakeItem => s.drainer == Idle && s.strand != []
    case EndHandler => s.drainer.Handling?
    case ReleaseBytes => s.drainer.Releasing? && s.drainer.bytes <= s.deferredBytes
    case FinishQueued => s.drainer == Finishing && s.reg.queuedRoutes > 0
    case PoolTake(i) => i in s.ready
    case LaneTake(k) => k < |s.serial| && FirstOfLane(s, k)
    case LookUp(i) => i in s.running && s.running[i] == Taken && IsRequest(s, i)
    case EndWork(i, how) => i in s.running && s.running[i] == Working && IsRequest(s, i) && how in {Result, Cancelled, Failed}
    case EraseEntry(i) => i in s.running && s.running[i].Erasing? && IsRequest(s, i)
    case SendAnswer(i) => i in s.running && s.running[i].Sending?
  }

  predicate IsRequest(s: State, i: nat) {
    i < |s.inbox| && s.inbox[i].message.Request?
  }

  predicate Asks(s: State, i: nat, id: int) {
    IsRequest(s, i) && s.inbox[i].message.id == id
  }

  // A large payload is parsed off the read loop when the budget allows.
  function ReceiveStep(s: State, p: Payload): State {
    var i := |s.inbox|;
    var t := s.(inbox := s.inbox + [p]);
    if p.size > INLINE_PARSE_LIMIT && s.deferredBytes + p.size <= MAX_DEFERRED_BYTES
    then t.(reader := Queueing(i, p.size), deferredBytes := s.deferredBytes + p.size)
    else t.(reader := Checking(i))
  }

  // While a payload ahead of it is queued, this one is parsed here and queued
  // behind it, unless it is an inline notification.
  function CheckStep(s: State): State
    requires Enabled(s, CheckQueue)
  {
    var i := s.reader.i;
    var m := s.inbox[i].message;
    if s.reg.queuedRoutes == 0 then s.(reader := Routes(AtMessage(i, OnArrival)))
    else if m.Malformed? then Close(s, i, Error).(reader := Waiting)
    else if IsInline(m) then s.(reader := Routes(AtMessage(i, OnArrival)))
    else s.(reader := Queueing(i, 0))
  }

  ghost function RouteStep(s: State, a: Actor): State
    requires Enabled(s, RouteMessage(a))
  {
    var i := Doing(s, a).i;
    var arrival := Doing(s, a).arrival;
    var m := s.inbox[i].message;
    var t := if InTurn(m) then s.(routed := s.routed + [i]) else s;
    match m
    case Malformed => Leave(Close(t, i, Error), a)
    case Rejected => Leave(Close(t, i, Error), a)
    case Silent(_) => Leave(Close(t, i, Nothing), a)
    case Cancel(id) => Leave(Close(CancelStep(t, id, arrival, i), i, Nothing), a)
    case Notification => Leave(t.(strand := t.strand + [Handle(i)]), a)
    case Request(id, _, _) => RegisterStep(t, a, id, i, arrival)
  }

  function RegisterStep(s: State, a: Actor, id: int, i: nat, arrival: Arrival): State
    requires Busy(s, a)
  {
    if id in s.reg.inflight then Continue(s, a, AtRefuse(i))
    else
      var t := s.(reg := RegisterId(s.reg, id, i, arrival));
      var hit := id in s.reg.early && AppliesTo(s.reg.early[id], arrival);
      Continue(if hit then t.(hits := s.hits + {(s.reg.early[id].cancel, i)}) else t, a, AtStart(i))
  }

  // Requests sent before cancel c that it is for: those in flight, and those
  // still waiting to be routed when it can be remembered.
  ghost function CalledOff(s: State, id: int, arrival: Arrival, c: nat): set<nat> {
    set i | 0 <= i < c && Asks(s, i, id) && (Holds(s, i) || (i in Unrouted(s) && Remembers(s.reg, id, arrival)))
  }

  ghost function CancelStep(s: State, id: int, arrival: Arrival, c: nat): State {
    s.(reg := CancelId(s.reg, id, arrival, c),
       hits := if id in s.reg.inflight then s.hits + {(c, s.reg.inflight[id].holder)} else s.hits,
       called := s.called + CalledOff(s, id, arrival, c))
  }

  // Posts a registered request to the strand its mode names or to the pool.
  function StartStep(s: State, a: Actor): State
    requires Enabled(s, StartRequest(a))
  {
    var i := Doing(s, a).i;
    var t := Leave(s, a);
    match s.inbox[i].message.mode
    case Concurrent => t.(ready := t.ready + multiset{i})
    case Serial => t.(serial := t.serial + [i])
    case SerialNetwork => t.(serial := t.serial + [i])
    case AfterNotifications => t.(strand := t.strand + [Launch(i)])
  }

  function TakeStep(s: State): State
    requires Enabled(s, TakeItem)
  {
    var t := s.(strand := s.strand[1..]);
    match s.strand[0]
    case Route(i, n, bytes) => t.(drainer := Drains(AtMessage(i, Numbered(n)), bytes))
    case Handle(i) => t.(drainer := Handling(i))
    case Launch(i) => t.(ready := t.ready + multiset{i})
  }

  // The entry is expected to be there; a task without one is answered at once.
  function LookUpStep(s: State, i: nat): State
    requires Enabled(s, LookUp(i))
  {
    if s.inbox[i].message.id in s.reg.inflight then s.(running := s.running[i := Working])
    else s.(running := s.running[i := Sending(Lost)])
  }

  // A handler that returned is still answered "cancelled" once its token was.
  function EndWorkStep(s: State, i: nat, how: Outcome): State
    requires Enabled(s, EndWork(i, how))
  {
    var id := s.inbox[i].message.id;
    var cancelled := id in s.reg.inflight && s.reg.inflight[id].cancelled;
    s.(running := s.running[i := Erasing(if how == Result && cancelled then Cancelled else how)])
  }

  ghost function Do(s: State, step: Step): State
    requires Enabled(s, step)
  {
    match step
    case Receive(p) => ReceiveStep(s, p)
    case CheckQueue => CheckStep(s)
    case TakeSlot => s.(reg := QueueRoute(s.reg), reader := Posting(s.reader.i, s.reg.lastQueued + 1, s.reader.bytes))
    case PostRoute => s.(strand := s.strand + [Route(s.reader.i, s.reader.n, s.reader.bytes)], reader := Waiting)
    case RouteMessage(a) => RouteStep(s, a)
    case StartRequest(a) => StartStep(s, a)
    case RefuseRequest(a) => Leave(Close(s, Doing(s, a).i, InUse), a)
    case TakeItem => TakeStep(s)
    case EndHandler => Close(s, s.drainer.i, Nothing).(drainer := Idle)
    case ReleaseBytes => s.(deferredBytes := s.deferredBytes - s.drainer.bytes, drainer := Finishing)
    case FinishQueued => s.(reg := FinishRoute(s.reg), drainer := Idle)
    case PoolTake(i) => s.(ready := s.ready - multiset{i}, running := s.running[i := Taken])
    case LaneTake(k) => s.(serial := s.serial[..k] + s.serial[k + 1..], running := s.running[s.serial[k] := Taken])
    case LookUp(i) => LookUpStep(s, i)
    case EndWork(i, how) => EndWorkStep(s, i, how)
    case EraseEntry(i) => s.(reg := EraseId(s.reg, s.inbox[i].message.id), running := s.running[i := Sending(s.running[i].how)])
    case SendAnswer(i) => Close(s, i, s.running[i].how).(running := s.running - {i})
  }

  // ----- runs ---------------------------------------------------------------

  // The states of a run: each follows from the one before by an enabled step.
  ghost predicate IsRun(states: seq<State>) {
    && states != [] && states[0] == Initial()
    && forall k :: 0 < k < |states| ==> Follows(states[k - 1], states[k])
  }

  ghost predicate Follows(s: State, t: State) {
    exists step :: Enabled(s, step) && Do(s, step) == t
  }
}
