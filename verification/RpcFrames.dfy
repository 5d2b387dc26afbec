/** What each step of the dispatcher leaves alone, field by field. */
module RpcFrames {
  import opened RpcRegistry
  import opened RpcDispatcher

  predicate ByActor(step: Step) {
    step.RouteMessage? || step.StartRequest? || step.RefuseRequest?
  }

  predicate MovesReader(step: Step) {
    step.Receive? || step.CheckQueue? || step.TakeSlot? || step.PostRoute? || (ByActor(step) && step.a == TheReader)
  }

  predicate MovesDrainer(step: Step) {
    step.TakeItem? || step.EndHandler? || step.ReleaseBytes? || step.FinishQueued? || (ByActor(step) && step.a == TheDrainer)
  }

  predicate MovesTask(step: Step) {
    step.PoolTake? || step.LaneTake? || step.LookUp? || step.EndWork? || step.EraseEntry? || step.SendAnswer?
  }

  predicate Closes(step: Step) {
    step.CheckQueue? || step.RouteMessage? || step.RefuseRequest? || step.EndHandler? || step.SendAnswer?
  }

  // All but the message's own actor and the strand, the table and history.
  ghost predicate KeepsRest(s: State, t: State, a: Actor) {
    && t.inbox == s.inbox && t.deferredBytes == s.deferredBytes
    && t.serial == s.serial && t.ready == s.ready && t.running == s.running
    && t.reg.queuedRoutes == s.reg.queuedRoutes && t.reg.lastQueued == s.reg.lastQueued
    && (a == TheReader ==> t.drainer == s.drainer)
    && (a == TheDrainer ==> t.reader == s.reader)
  }

  lemma LeaveRest(s: State, a: Actor)
    requires Busy(s, a)
    ensures KeepsRest(s, Leave(s, a), a) && Leave(s, a).routed == s.routed
  {
  }

  lemma RegisterRest(s: State, a: Actor, id: int, i: nat, arrival: Arrival)
    requires Busy(s, a)
    ensures KeepsRest(s, RegisterStep(s, a, id, i, arrival), a) && RegisterStep(s, a, id, i, arrival).routed == s.routed
  {
  }

  lemma CancelRest(s: State, a: Actor, id: int, arrival: Arrival, c: nat)
    ensures KeepsRest(s, CancelStep(s, id, arrival, c), a) && CancelStep(s, id, arrival, c).routed == s.routed
    ensures CancelStep(s, id, arrival, c).reader == s.reader && CancelStep(s, id, arrival, c).drainer == s.drainer
  {
    hide CalledOff;
  }

  // The part of routing one message that does not depend on what it is.
  lemma RouteFrame(s: State, a: Actor)
    requires Enabled(s, RouteMessage(a))
    ensures
      var t := RouteStep(s, a);
      && t.inbox == s.inbox && t.deferredBytes == s.deferredBytes
      && t.serial == s.serial && t.ready == s.ready && t.running == s.running
      && t.routed == (if InTurn(s.inbox[Doing(s, a).i].message) then s.routed + [Doing(s, a).i] else s.routed)
      && t.reg.queuedRoutes == s.reg.queuedRoutes && t.reg.lastQueued == s.reg.lastQueued
      && (a == TheReader ==> t.drainer == s.drainer)
      && (a == TheDrainer ==> t.reader == s.reader)
  {
    hide Leave, RegisterStep, CancelStep;
    var i, arrival := Doing(s, a).i, Doing(s, a).arrival;
    var t := if InTurn(s.inbox[i].message) then s.(routed := s.routed + [i]) else s;
    match s.inbox[i].message
    case Malformed => LeaveRest(Close(t, i, Error), a);
    case Rejected => LeaveRest(Close(t, i, Error), a);
    case Silent(_) => LeaveRest(Close(t, i, Nothing), a);
    case Cancel(id) =>
      CancelRest(t, a, id, arrival, i);
      LeaveRest(Close(CancelStep(t, id, arrival, i), i, Nothing), a);
    case Notification => LeaveRest(t.(strand := t.strand + [Handle(i)]), a);
    case Request(id, _, _) => RegisterRest(t, a, id, i, arrival);
  }

  lemma RouteTable(s: State, a: Actor)
    requires Enabled(s, RouteMessage(a))
    ensures
      var t := RouteStep(s, a);
      var i := Doing(s, a).i;
      var arrival := Doing(s, a).arrival;
      t.reg == match s.inbox[i].message
               case Cancel(id) => CancelId(s.reg, id, arrival, i)
               case Request(id, _, _) => RegisterId(s.reg, id, i, arrival)
               case _ => s.reg
  {
    hide CalledOff, CancelId;
  }

  // Which cancel hits which request, and which requests a cancel is for.
  lemma RouteHits(s: State, a: Actor)
    requires Enabled(s, RouteMessage(a))
    ensures
      var t := RouteStep(s, a);
      var i := Doing(s, a).i;
      var arrival := Doing(s, a).arrival;
      match s.inbox[i].message
      case Cancel(id) =>
        && t.hits == (if id in s.reg.inflight then s.hits + {(i, s.reg.inflight[id].holder)} else s.hits)
        && t.called == s.called + CalledOff(s, id, arrival, i)
      case Request(id, _, _) =>
        && t.hits == (if id !in s.reg.inflight && id in s.reg.early && AppliesTo(s.reg.early[id], arrival)
                      then s.hits + {(s.reg.early[id].cancel, i)} else s.hits)
        && t.called == s.called
      case _ => t.hits == s.hits && t.called == s.called
  {
    hide CalledOff, CancelId, RegisterId;
  }

  // Where the actor goes, and what it posts or closes.
  lemma RouteEffect(s: State, a: Actor)
    requires Enabled(s, RouteMessage(a))
    ensures
      var t := RouteStep(s, a);
      var i := Doing(s, a).i;
      var m := s.inbox[i].message;
      && t.strand == (if m.Notification? then s.strand + [Handle(i)] else s.strand)
      && t.closed == (if m.Request? || m.Notification? then s.closed
                      else s.closed + [Closing(i, if NeedsAnswer(m) then Error else Nothing)])
      && (a == TheReader ==>
            t.reader == (if !m.Request? then Waiting
                         else if m.id in s.reg.inflight then Routes(AtRefuse(i)) else Routes(AtStart(i))))
      && (a == TheDrainer ==>
            t.drainer == (if !m.Request? then Releasing(s.drainer.bytes)
                          else Drains(if m.id in s.reg.inflight then AtRefuse(i) else AtStart(i), s.drainer.bytes)))
  {
    hide CalledOff, CancelId, RegisterId;
  }

  lemma StartFrame(s: State, a: Actor)
    requires Enabled(s, StartRequest(a))
    ensures
      var t := StartStep(s, a);
      var i := Doing(s, a).i;
      && t.inbox == s.inbox && t.deferredBytes == s.deferredBytes && t.running == s.running && t.routed == s.routed
      && t.reg == s.reg && t.closed == s.closed && t.hits == s.hits && t.called == s.called
      && t.reader == (if a == TheReader then Waiting else s.reader)
      && t.drainer == (if a == TheDrainer then Releasing(s.drainer.bytes) else s.drainer)
      && match s.inbox[i].message.mode
         case Concurrent => t.ready == s.ready + multiset{i} && t.serial == s.serial && t.strand == s.strand
         case AfterNotifications => t.ready == s.ready && t.serial == s.serial && t.strand == s.strand + [Launch(i)]
         case _ => t.ready == s.ready && t.serial == s.serial + [i] && t.strand == s.strand
  {
  }

  lemma InboxKept(s: State, step: Step)
    requires Enabled(s, step)
    ensures Do(s, step).inbox == if step.Receive? then s.inbox + [step.p] else s.inbox
  {
    FrameActor(s, step);
    hide RouteStep, StartStep;
  }

  lemma FrameActor(s: State, step: Step)
    requires Enabled(s, step)
    ensures step.RouteMessage? ==> RouteStep(s, step.a).inbox == s.inbox
    ensures step.StartRequest? ==> StartStep(s, step.a).inbox == s.inbox
  {
    if step.RouteMessage? { RouteFrame(s, step.a); }
  }

  lemma ReaderFrame(s: State, step: Step)
    requires Enabled(s, step) && !MovesReader(step)
    ensures Do(s, step).reader == s.reader
  {
    hide RouteStep, StartStep;
    if step.RouteMessage? { RouteFrame(s, step.a); }
    if step.StartRequest? { StartFrame(s, step.a); }
  }

  lemma DrainerFrame(s: State, step: Step)
    requires Enabled(s, step) && !MovesDrainer(step)
    ensures Do(s, step).drainer == s.drainer
  {
    hide RouteStep, StartStep;
    if step.RouteMessage? { RouteFrame(s, step.a); }
    if step.StartRequest? { StartFrame(s, step.a); }
  }

  lemma QueueFrame(s: State, step: Step)
    requires Enabled(s, step) && !step.RouteMessage? && !step.StartRequest?
    ensures !step.PostRoute? && !step.TakeItem? ==> Do(s, step).strand == s.strand
    ensures !step.LaneTake? ==> Do(s, step).serial == s.serial
    ensures !step.TakeItem? && !step.PoolTake? ==> Do(s, step).ready == s.ready
  {
  }

  lemma TaskFrame(s: State, step: Step)
    requires Enabled(s, step) && !MovesTask(step)
    ensures Do(s, step).running == s.running
  {
    hide RouteStep, StartStep;
    if step.RouteMessage? { RouteFrame(s, step.a); }
    if step.StartRequest? { StartFrame(s, step.a); }
  }

  lemma ClosedFrame(s: State, step: Step)
    requires Enabled(s, step) && !Closes(step)
    ensures Do(s, step).closed == s.closed
  {
    hide RouteStep, StartStep;
    if step.StartRequest? { StartFrame(s, step.a); }
  }

  lemma HistoryFrame(s: State, step: Step)
    requires Enabled(s, step) && !step.RouteMessage?
    ensures Do(s, step).routed == s.routed && Do(s, step).hits == s.hits && Do(s, step).called == s.called
  {
    hide StartStep;
    if step.StartRequest? { StartFrame(s, step.a); }
  }

  lemma TableFrame(s: State, step: Step)
    requires Enabled(s, step) && !step.RouteMessage?
    ensures !step.EraseEntry? ==> Do(s, step).reg.inflight == s.reg.inflight
    ensures !step.FinishQueued? ==> Do(s, step).reg.early == s.reg.early
    ensures !step.FinishQueued? && !step.TakeSlot? ==>
      Do(s, step).reg.queuedRoutes == s.reg.queuedRoutes && Do(s, step).reg.lastQueued == s.reg.lastQueued
  {
    hide StartStep;
    if step.StartRequest? {
      StartFrame(s, step.a);
    } else if !step.EraseEntry? && !step.FinishQueued? && !step.TakeSlot? {
      WholeTable(s, step);
      hide Do;
    }
  }

  lemma WholeTable(s: State, step: Step)
    requires Enabled(s, step) && !step.RouteMessage? && !step.StartRequest?
    requires !step.EraseEntry? && !step.FinishQueued? && !step.TakeSlot?
    ensures Do(s, step).reg == s.reg
  {
    hide FirstOfLane;
  }

  lemma BytesFrame(s: State, step: Step)
    requires Enabled(s, step) && !step.Receive? && !step.ReleaseBytes?
    ensures Do(s, step).deferredBytes == s.deferredBytes
  {
    hide RouteStep, StartStep;
    if step.RouteMessage? { RouteFrame(s, step.a); }
    if step.StartRequest? { StartFrame(s, step.a); }
  }
}
