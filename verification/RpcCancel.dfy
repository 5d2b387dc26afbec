/** A $/cancelRequest reaches its request and no other: never one that arrived
    after it, and always the one it names while that waits or runs. */
module RpcCancel {
  import opened RpcRegistry
  import opened RpcDispatcher
  import opened RpcFrames
  import opened RpcAnswers
  import opened RpcInflight
  import opened RpcOrder

  // ----- arrival numbers ----------------------------------------------------

  predicate RouteAs(items: seq<Item>, i: nat, n: nat) {
    items != [] &&
    ((items[0].Route? && items[0].i == i && items[0].n == n) || RouteAs(items[1..], i, n))
  }

  // Message i waits to be routed with arrival number n.
  predicate QueuedAs(s: State, i: nat, n: nat) {
    || RouteAs(s.strand, i, n)
    || (s.drainer.Drains? && s.drainer.r == AtMessage(i, Numbered(n)))
    || (s.reader.Posting? && s.reader.i == i && s.reader.n == n)
  }

  lemma {:induction false} RouteAsPush(items: seq<Item>, item: Item, i: nat, n: nat)
    ensures RouteAs(items + [item], i, n) == (RouteAs(items, i, n) || (item.Route? && item.i == i && item.n == n))
  {
    if items == [] {
      assert items + [item] == [item];
    } else {
      RouteAsPush(items[1..], item, i, n);
      assert (items + [item])[1..] == items[1..] + [item];
    }
  }

  lemma {:induction false} RouteAsIn(items: seq<Item>, i: nat, n: nat)
    ensures RouteAs(items, i, n) ==> i in RouteIndices(items)
    ensures RouteAs(items, i, n) ==> ItemsAt(items, i) > 0
  {
    if items != [] { RouteAsIn(items[1..], i, n); }
  }

  lemma QueuedRoute(s: State, a: Actor, i: nat, n: nat)
    requires Enabled(s, RouteMessage(a))
    ensures QueuedAs(RouteStep(s, a), i, n) ==> QueuedAs(s, i, n)
    ensures QueuedAs(s, i, n) && i != Doing(s, a).i ==> QueuedAs(RouteStep(s, a), i, n)
  {
    RouteFrame(s, a);
    RouteEffect(s, a);
    RouteAsPush(s.strand, Handle(Doing(s, a).i), i, n);
    hide RouteStep, RouteAs;
  }

  lemma QueuedStart(s: State, a: Actor, i: nat, n: nat)
    requires Enabled(s, StartRequest(a))
    ensures QueuedAs(StartStep(s, a), i, n) == QueuedAs(s, i, n)
  {
    StartFrame(s, a);
    RouteAsPush(s.strand, Launch(Doing(s, a).i), i, n);
    hide StartStep, RouteAs;
  }

  lemma QueuedReader(s: State, step: Step, i: nat, n: nat)
    requires Enabled(s, step) && (step.Receive? || step.CheckQueue? || step.TakeSlot? || step.PostRoute? || step.RefuseRequest?)
    ensures QueuedAs(Do(s, step), i, n) ==
      (QueuedAs(s, i, n) || (step.TakeSlot? && i == s.reader.i && n == s.reg.lastQueued + 1))
  {
    if step.PostRoute? { RouteAsPush(s.strand, Route(s.reader.i, s.reader.n, s.reader.bytes), i, n); }
    hide RouteAs;
  }

  lemma QueuedDrainer(s: State, step: Step, i: nat, n: nat)
    requires Enabled(s, step) && (step.TakeItem? || step.EndHandler? || step.ReleaseBytes? || step.FinishQueued?)
    ensures QueuedAs(Do(s, step), i, n) == QueuedAs(s, i, n)
  {
  }

  lemma QueuedTask(s: State, step: Step, i: nat, n: nat)
    requires Enabled(s, step) && MovesTask(step)
    ensures QueuedAs(Do(s, step), i, n) == QueuedAs(s, i, n)
  {
    ReaderFrame(s, step);
    DrainerFrame(s, step);
    QueueFrame(s, step);
    hide Do;
  }

  // A message keeps its number until it is routed; only taking a slot in the
  // queue gives a new one.
  lemma QueuedKept(s: State, step: Step, i: nat, n: nat)
    requires Enabled(s, step) && !step.RouteMessage?
    ensures QueuedAs(Do(s, step), i, n) ==
      (QueuedAs(s, i, n) || (step.TakeSlot? && i == s.reader.i && n == s.reg.lastQueued + 1))
  {
    hide QueuedAs;
    if step.StartRequest? {
      QueuedStart(s, step.a, i, n);
    } else if MovesTask(step) {
      QueuedTask(s, step, i, n);
    } else if step.TakeItem? || step.EndHandler? || step.ReleaseBytes? || step.FinishQueued? {
      QueuedDrainer(s, step, i, n);
    } else {
      QueuedReader(s, step, i, n);
    }
    hide StartStep;
  }

  // ----- remembered cancels -------------------------------------------------

  // A queued message has a number within a remembered cancel's just when it
  // arrived before that cancel.
  ghost predicate PairFits(s: State, i: nat, n: nat) {
    && n <= s.reg.lastQueued
    && forall id :: id in s.reg.early ==> (n <= s.reg.early[id].upTo <==> i < s.reg.early[id].cancel)
  }

  ghost predicate EarlyFits(s: State, id: int)
    requires id in s.reg.early
  {
    var e := s.reg.early[id];
    && e.upTo <= s.reg.lastQueued && e.cancel < |s.inbox| && s.inbox[e.cancel].message == Message.Cancel(id)
    && forall i :: i in ReaderWaits(s.reader) ==> e.cancel < i
  }

  ghost predicate Remembered(s: State) {
    && (forall i: nat, n: nat :: QueuedAs(s, i, n) ==> PairFits(s, i, n))
    && (forall id :: id in s.reg.early ==> EarlyFits(s, id))
  }

  // The entries of the remembered cancels after routing one message.
  lemma EarlyRoute(s: State, a: Actor, id: int)
    requires Enabled(s, RouteMessage(a)) && Sound(s) && id in RouteStep(s, a).reg.early
    ensures
      var i := Doing(s, a).i;
      var e := RouteStep(s, a).reg.early[id];
      || (id in s.reg.early && e == s.reg.early[id])
      || (a == TheReader && s.inbox[i].message == Message.Cancel(id) && e == Early(s.reg.lastQueued, i))
  {
    RouteTable(s, a);
    hide RouteStep, Conserved, Listed;
  }

  lemma EarlyFitsRoute(s: State, a: Actor, id: int)
    requires Enabled(s, RouteMessage(a)) && Staged(s) && Remembered(s) && id in RouteStep(s, a).reg.early
    ensures EarlyFits(RouteStep(s, a), id)
  {
    EarlyRoute(s, a, id);
    RouteFrame(s, a);
    ReaderAfterRoute(s, a);
    if id in s.reg.early { assert EarlyFits(s, id); }
    if a == TheReader { LastReceived(s); }
    hide RouteStep, Staged, Remembered, PairFits;
  }

  // What the read loop is routing is the payload last received.
  lemma LastReceived(s: State)
    requires Staged(s) && Enabled(s, RouteMessage(TheReader))
    ensures s.reader.r.i + 1 == |s.inbox|
  {
    assert ReaderTyped(s);
  }

  lemma ReaderAfterRoute(s: State, a: Actor)
    requires Enabled(s, RouteMessage(a))
    ensures forall i :: i in ReaderWaits(RouteStep(s, a).reader) ==> i in ReaderWaits(s.reader) && a == TheDrainer
  {
    RouteFrame(s, a);
    RouteEffect(s, a);
    hide RouteStep;
  }

  lemma EarlyFitsKept(s: State, step: Step, id: int)
    requires Enabled(s, step) && Staged(s) && Remembered(s) && !step.RouteMessage? && id in Do(s, step).reg.early
    ensures EarlyFits(Do(s, step), id)
  {
    InboxKept(s, step);
    TableFrame(s, step);
    assert id in s.reg.early && Do(s, step).reg.early[id] == s.reg.early[id] by {
      hide Staged, Remembered;
    }
    assert EarlyFits(s, id);
    assert Do(s, step).reg.lastQueued >= s.reg.lastQueued by {
      hide Staged, Remembered;
    }
    ReaderWaitsKept(s, step);
    hide Do, Staged, Remembered;
  }

  lemma ReaderWaitsKept(s: State, step: Step)
    requires Enabled(s, step) && !step.RouteMessage?
    ensures forall i :: i in ReaderWaits(Do(s, step).reader) ==> i in ReaderWaits(s.reader) || (step.Receive? && i == |s.inbox|)
  {
    if !MovesReader(step) {
      ReaderFrame(s, step);
      hide Do;
    } else if step.StartRequest? {
      StartFrame(s, step.a);
      hide StartStep;
    }
  }

  lemma PairFitsRoute(s: State, a: Actor, i: nat, n: nat)
    requires Enabled(s, RouteMessage(a)) && Staged(s) && Remembered(s) && QueuedAs(RouteStep(s, a), i, n)
    ensures PairFits(RouteStep(s, a), i, n)
  {
    QueuedRoute(s, a, i, n);
    RouteFrame(s, a);
    assert PairFits(s, i, n);
    var t := RouteStep(s, a);
    forall id | id in t.reg.early
      ensures n <= t.reg.early[id].upTo <==> i < t.reg.early[id].cancel
    {
      EarlyRoute(s, a, id);
      if a == TheReader { EarlierThanReader(s, i, n); }
      hide RouteStep, Staged, Remembered;
    }
  }

  // Whatever is queued arrived before what the read loop is routing.
  lemma EarlierThanReader(s: State, i: nat, n: nat)
    requires Staged(s) && QueuedAs(s, i, n) && Enabled(s, RouteMessage(TheReader))
    ensures i < s.reader.r.i
  {
    RouteAsIn(s.strand, i, n);
    var ahead := s.routed + DrainerWaits(s.drainer) + RouteIndices(s.strand);
    assert i in ahead;
    assert Turns(s) == ahead + [s.reader.r.i];
    AscendingParts(ahead, [s.reader.r.i]);
    assert s.reader.r.i in [s.reader.r.i];
  }

  lemma PairFitsKept(s: State, step: Step, i: nat, n: nat)
    requires Enabled(s, step) && Staged(s) && Remembered(s) && !step.RouteMessage? && QueuedAs(Do(s, step), i, n)
    ensures PairFits(Do(s, step), i, n)
  {
    QueuedKept(s, step, i, n);
    TableFrame(s, step);
    if QueuedAs(s, i, n) {
      assert PairFits(s, i, n);
      hide Staged, Remembered, QueuedAs, StartStep;
    } else {
      forall id | id in s.reg.early ensures s.reg.early[id].cancel < i && s.reg.early[id].upTo < n {
        assert EarlyFits(s, id);
        assert i in ReaderWaits(s.reader);
      }
      hide Staged, Remembered, QueuedAs, StartStep;
    }
  }

  lemma RememberedStep(s: State, step: Step)
    requires Enabled(s, step) && Staged(s) && Remembered(s)
    ensures Remembered(Do(s, step))
  {
    var t := Do(s, step);
    forall i: nat, n: nat | QueuedAs(t, i, n) ensures PairFits(t, i, n) {
      if step.RouteMessage? { PairFitsRoute(s, step.a, i, n); } else { PairFitsKept(s, step, i, n); }
    }
    forall id | id in t.reg.early ensures EarlyFits(t, id) {
      if step.RouteMessage? { EarlyFitsRoute(s, step.a, id); } else { EarlyFitsKept(s, step, id); }
    }
  }

  // ----- no cancel hits a later request -------------------------------------

  // A hit: cancel c, naming the id of request i, which arrived before it.
  predicate HitFits(s: State, c: nat, i: nat) {
    i < c < |s.inbox| && IsRequest(s, i) && s.inbox[c].message == Message.Cancel(s.inbox[i].message.id)
  }

  // Every token set is set by such a hit.
  ghost predicate Explained(s: State, id: int)
    requires id in s.reg.inflight
  {
    s.reg.inflight[id].cancelled ==> exists c: nat :: (c, s.reg.inflight[id].holder) in s.hits
  }

  ghost predicate HitsFit(s: State) {
    && (forall h :: h in s.hits ==> HitFits(s, h.0, h.1))
    && (forall id :: id in s.reg.inflight ==> Explained(s, id))
  }

  // A cancel hits the holder of its id, which came before it.
  lemma HolderHit(s: State, a: Actor)
    requires Enabled(s, RouteMessage(a)) && Staged(s) && s.inbox[Doing(s, a).i].message.Cancel?
    requires s.inbox[Doing(s, a).i].message.target in s.reg.inflight
    ensures HitFits(s, Doing(s, a).i, s.reg.inflight[s.inbox[Doing(s, a).i].message.target].holder)
  {
    assert EntryHeld(s, s.inbox[Doing(s, a).i].message.target);
    UnroutedLater(s);
    assert Doing(s, a).i in Unrouted(s);
    hide RouteStep, Staged, Holds;
  }

  // A remembered cancel hits a request that was queued before it.
  lemma EarlyHit(s: State, a: Actor)
    requires Enabled(s, RouteMessage(a)) && Staged(s) && Remembered(s) && s.inbox[Doing(s, a).i].message.Request?
    requires var id := s.inbox[Doing(s, a).i].message.id; id in s.reg.early && AppliesTo(s.reg.early[id], Doing(s, a).arrival)
    ensures HitFits(s, s.reg.early[s.inbox[Doing(s, a).i].message.id].cancel, Doing(s, a).i)
  {
    var i := Doing(s, a).i;
    assert EarlyFits(s, s.inbox[i].message.id);
    assert DrainerTyped(s) && ReaderTyped(s);
    assert QueuedAs(s, i, Doing(s, a).arrival.n);
    assert PairFits(s, i, Doing(s, a).arrival.n);
  }

  lemma HitFitsRoute(s: State, a: Actor, h: (nat, nat))
    requires Enabled(s, RouteMessage(a)) && Staged(s) && Remembered(s) && HitsFit(s) && h in RouteStep(s, a).hits
    ensures HitFits(RouteStep(s, a), h.0, h.1)
  {
    RouteHits(s, a);
    RouteFrame(s, a);
    hide RouteStep, Staged, Remembered;
    if h !in s.hits {
      if s.inbox[Doing(s, a).i].message.Cancel? {
        HolderHit(s, a);
      } else {
        EarlyHit(s, a);
      }
    }
  }

  lemma ExplainedRoute(s: State, a: Actor, id: int)
    requires Enabled(s, RouteMessage(a)) && HitsFit(s) && id in RouteStep(s, a).reg.inflight
    ensures Explained(RouteStep(s, a), id)
  {
    RouteHits(s, a);
    RouteTable(s, a);
    var t := RouteStep(s, a);
    var i := Doing(s, a).i;
    hide RouteStep;
    if t.reg.inflight[id].cancelled {
      if id in s.reg.inflight && s.reg.inflight[id].cancelled {
        assert Explained(s, id);
        var c: nat :| (c, s.reg.inflight[id].holder) in s.hits;
        assert (c, t.reg.inflight[id].holder) in t.hits;
      } else if s.inbox[i].message.Cancel? {
        assert (i, t.reg.inflight[id].holder) in t.hits;
      } else {
        assert (s.reg.early[id].cancel, t.reg.inflight[id].holder) in t.hits;
      }
    }
  }

  lemma HitsFitRoute(s: State, a: Actor)
    requires Enabled(s, RouteMessage(a)) && Staged(s) && Remembered(s) && HitsFit(s)
    ensures HitsFit(RouteStep(s, a))
  {
    var t := RouteStep(s, a);
    forall h | h in t.hits ensures HitFits(t, h.0, h.1) { HitFitsRoute(s, a, h); }
    forall id | id in t.reg.inflight ensures Explained(t, id) { ExplainedRoute(s, a, id); }
    hide *;
    HitsAre(t);
  }

  lemma HitsAre(s: State)
    requires (forall h :: h in s.hits ==> HitFits(s, h.0, h.1)) && forall id :: id in s.reg.inflight ==> Explained(s, id)
    ensures HitsFit(s)
  {
  }

  lemma HitsFitKept(s: State, step: Step)
    requires Enabled(s, step) && HitsFit(s) && !step.RouteMessage?
    ensures HitsFit(Do(s, step))
  {
    InboxKept(s, step);
    HistoryFrame(s, step);
    EntriesKept(s, step);
    var t := Do(s, step);
    hide Do, Enabled;
    forall id | id in t.reg.inflight ensures Explained(t, id) {
      assert Explained(s, id);
    }
  }

  lemma EntriesKept(s: State, step: Step)
    requires Enabled(s, step) && !step.RouteMessage?
    ensures forall id :: id in Do(s, step).reg.inflight ==> id in s.reg.inflight && Do(s, step).reg.inflight[id] == s.reg.inflight[id]
  {
    TableFrame(s, step);
    hide StartStep;
  }

  lemma HitsFitStep(s: State, step: Step)
    requires Enabled(s, step) && Staged(s) && Remembered(s) && HitsFit(s)
    ensures HitsFit(Do(s, step))
  {
    hide HitsFit, Staged, Remembered, Enabled, RouteStep;
    if step.RouteMessage? {
      HitsFitRoute(s, step.a);
    } else {
      HitsFitKept(s, step);
      hide Do;
    }
  }

  ghost predicate Cancelling(s: State) {
    Staged(s) && Remembered(s) && HitsFit(s)
  }

  lemma {:induction false} CancellingRun(states: seq<State>, k: nat)
    requires IsRun(states) && k < |states|
    ensures Cancelling(states[k])
  {
    StagedRun(states, k);
    if k > 0 {
      CancellingRun(states, k - 1);
      assert Follows(states[k - 1], states[k]);
      var step :| Enabled(states[k - 1], step) && Do(states[k - 1], step) == states[k];
      RememberedStep(states[k - 1], step);
      HitsFitStep(states[k - 1], step);
      hide Do, Staged, Remembered, HitsFit;
    }
  }

  // In no run does a cancel take effect on a request that arrived after it,
  // nor on one with another id, and no token is set but by a cancel.
  lemma NoCancelReachesLater(states: seq<State>, k: nat, id: int)
    requires IsRun(states) && k < |states| && id in states[k].reg.inflight && states[k].reg.inflight[id].cancelled
    ensures exists c: nat :: HitFits(states[k], c, states[k].reg.inflight[id].holder)
    ensures states[k].reg.inflight[id].holder < |states[k].inbox| && Asks(states[k], states[k].reg.inflight[id].holder, id)
  {
    var s := states[k];
    CancellingRun(states, k);
    assert EntryHeld(s, id);
    assert Explained(s, id);
    var c: nat :| (c, s.reg.inflight[id].holder) in s.hits;
    assert HitFits(s, c, s.reg.inflight[id].holder);
  }

  // ----- every cancel reaches its request -----------------------------------

  // A client that reuses an id only once it has the answer.
  predicate Fresh(s: State, step: Step) {
    step.Receive? && step.p.message.Request? ==>
      forall j :: 0 <= j < |s.inbox| && Asks(s, j, step.p.message.id) ==> exists c :: c in s.closed && c.i == j
  }

  ghost predicate FreshFollows(s: State, t: State) {
    exists step :: Enabled(s, step) && Fresh(s, step) && Do(s, step) == t
  }

  ghost predicate IsFreshRun(states: seq<State>) {
    && states != [] && states[0] == Initial()
    && forall k :: 0 < k < |states| ==> FreshFollows(states[k - 1], states[k])
  }

  lemma FreshRunIsRun(states: seq<State>)
    requires IsFreshRun(states)
    ensures IsRun(states)
  {
    forall k | 0 < k < |states| ensures Follows(states[k - 1], states[k]) {
      assert FreshFollows(states[k - 1], states[k]);
    }
  }

  ghost predicate SameId(s: State, i: nat, j: nat) {
    IsRequest(s, i) && IsRequest(s, j) && s.inbox[i].message.id == s.inbox[j].message.id
  }

  // Of two requests with one id, the first is answered.
  ghost predicate UniqueIds(s: State) {
    forall i: nat, j: nat :: i < j && SameId(s, i, j) ==> IsClosed(s, i)
  }

  // Request i waits to be routed and a remembered cancel is for it.
  ghost predicate Awaited(s: State, i: nat) {
    IsRequest(s, i) && s.inbox[i].message.id in s.reg.early
    && exists n: nat :: QueuedAs(s, i, n) && n <= s.reg.early[s.inbox[i].message.id].upTo
  }

  // A request a cancel was routed for: cancelled if in flight, awaited if not.
  ghost predicate CalledFits(s: State, i: nat) {
    && IsRequest(s, i)
    && (Holds(s, i) ==> var id := s.inbox[i].message.id; id in s.reg.inflight && s.reg.inflight[id].cancelled)
    && (i in Unrouted(s) ==> Awaited(s, i))
  }

  ghost predicate CalledReached(s: State) {
    forall i: nat :: i in s.called ==> CalledFits(s, i)
  }

  lemma UniqueIdsStep(s: State, step: Step)
    requires Enabled(s, step) && Fresh(s, step) && UniqueIds(s)
    ensures UniqueIds(Do(s, step))
  {
    var t := Do(s, step);
    InboxKept(s, step);
    forall i: nat, j: nat | i < j && SameId(t, i, j) ensures IsClosed(t, i) {
      if j < |s.inbox| {
        assert SameId(s, i, j);
      } else {
        assert Asks(s, i, step.p.message.id);
      }
      ClosedStays(s, step, i);
    }
  }

  // A message held somewhere is not closed.
  lemma HeldIsOpen(s: State, i: nat)
    requires Staged(s) && (Holds(s, i) || i in Unrouted(s) || (exists a :: Busy(s, a) && Doing(s, a).i == i))
    ensures !IsClosed(s, i)
  {
    assert Places(s, i) <= 1;
    SerialIn(s.serial, i);
    PlacedTwice(s, i);
    UnroutedPlaced(s, i);
    if IsClosed(s, i) {
      var c :| c in s.closed && c.i == i;
      ClosedIn(s.closed, c);
    }
  }

  lemma {:induction false} RouteIndicesPlaced(items: seq<Item>, i: nat)
    ensures i in RouteIndices(items) ==> ItemsAt(items, i) > 0
  {
    if items != [] { RouteIndicesPlaced(items[1..], i); }
  }

  lemma UnroutedPlaced(s: State, i: nat)
    ensures i in Unrouted(s) ==> ReaderAt(s.reader, i) + DrainerAt(s.drainer, i) + ItemsAt(s.strand, i) > 0
  {
    RouteIndicesPlaced(s.strand, i);
  }

  // What is waiting ahead of the read loop has a number.
  lemma {:induction false} HasNumber(items: seq<Item>, i: nat)
    requires i in RouteIndices(items)
    ensures exists n: nat :: RouteAs(items, i, n)
  {
    if items[0].Route? && items[0].i == i {
      assert RouteAs(items, i, items[0].n);
    } else {
      HasNumber(items[1..], i);
      var n: nat :| RouteAs(items[1..], i, n);
      assert RouteAs(items, i, n);
    }
  }

  lemma WaitingHasNumber(s: State, i: nat)
    requires DrainerTyped(s) && i in Unrouted(s) && i !in ReaderWaits(s.reader)
    ensures exists n: nat :: QueuedAs(s, i, n)
  {
    if i in RouteIndices(s.strand) {
      HasNumber(s.strand, i);
      var n: nat :| RouteAs(s.strand, i, n);
      assert QueuedAs(s, i, n);
    } else {
      assert QueuedAs(s, i, s.drainer.r.arrival.n);
    }
  }

  // A request named by the cancel being routed.
  lemma NewlyCalled(s: State, a: Actor, i: nat)
    requires Cancelling(s) && Enabled(s, RouteMessage(a)) && s.inbox[Doing(s, a).i].message.Cancel?
    requires i in CalledOff(s, s.inbox[Doing(s, a).i].message.target, Doing(s, a).arrival, Doing(s, a).i)
    ensures CalledFits(RouteStep(s, a), i)
  {
    NewlyCalledHeld(s, a, i);
    NewlyCalledWaits(s, a, i);
    hide RouteStep, Cancelling, Enabled, CalledOff, Awaited, Holds, Unrouted;
  }

  lemma NewlyCalledHeld(s: State, a: Actor, i: nat)
    requires Cancelling(s) && Enabled(s, RouteMessage(a)) && s.inbox[Doing(s, a).i].message.Cancel?
    requires i in CalledOff(s, s.inbox[Doing(s, a).i].message.target, Doing(s, a).arrival, Doing(s, a).i)
    ensures var t := RouteStep(s, a);
      && IsRequest(t, i)
      && (Holds(t, i) ==> var id := t.inbox[i].message.id; id in t.reg.inflight && t.reg.inflight[id].cancelled)
  {
    RouteTable(s, a);
    RouteFrame(s, a);
    HoldsRoute(s, a, i);
    assert HolderListed(s, i);
    hide RouteStep, Cancelling, Unrouted;
  }

  lemma NewlyCalledWaits(s: State, a: Actor, i: nat)
    requires Cancelling(s) && Enabled(s, RouteMessage(a)) && s.inbox[Doing(s, a).i].message.Cancel?
    requires i in CalledOff(s, s.inbox[Doing(s, a).i].message.target, Doing(s, a).arrival, Doing(s, a).i)
    ensures i in Unrouted(RouteStep(s, a)) ==> Awaited(RouteStep(s, a), i)
  {
    var t := RouteStep(s, a);
    RouteTable(s, a);
    RouteFrame(s, a);
    UnroutedRoute(s, a);
    if i in Unrouted(t) {
      assert i in Unrouted(s);
      HeldNotUnrouted(s, i);
      assert DrainerTyped(s) && ReaderTyped(s);
      WaitingHasNumber(s, i);
      var n: nat :| QueuedAs(s, i, n);
      assert PairFits(s, i, n);
      QueuedRoute(s, a, i, n);
      assert QueuedAs(t, i, n);
    }
    hide RouteStep, Cancelling, QueuedAs, Unrouted, Holds;
  }

  lemma HeldNotUnrouted(s: State, i: nat)
    requires Staged(s)
    ensures !(Holds(s, i) && i in Unrouted(s))
  {
    UnroutedLater(s);
  }

  // No routing clears a token.
  lemma TokenStays(s: State, a: Actor, id: int)
    requires Enabled(s, RouteMessage(a)) && id in s.reg.inflight && s.reg.inflight[id].cancelled
    ensures var t := RouteStep(s, a); id in t.reg.inflight && t.reg.inflight[id].cancelled
  {
    RouteTable(s, a);
    hide RouteStep;
  }

  lemma StillCancelledRoute(s: State, a: Actor, i: nat)
    requires Cancelling(s) && Enabled(s, RouteMessage(a)) && CalledFits(s, i) && Holds(s, i)
    ensures CalledFits(RouteStep(s, a), i)
  {
    TokenStays(s, a, s.inbox[i].message.id);
    RouteFrame(s, a);
    UnroutedRoute(s, a);
    HeldNotUnrouted(s, i);
    hide RouteStep, Cancelling, Unrouted, Holds, Enabled, Awaited;
  }

  // A request already called for stays so, whatever is routed.
  lemma StillCalledRoute(s: State, a: Actor, i: nat)
    requires Cancelling(s) && UniqueIds(s) && Enabled(s, RouteMessage(a)) && CalledFits(s, i)
    ensures CalledFits(RouteStep(s, a), i)
  {
    var t := RouteStep(s, a);
    RouteFrame(s, a);
    HoldsRoute(s, a, i);
    UnroutedRoute(s, a);
    if Holds(s, i) {
      StillCancelledRoute(s, a, i);
    } else if i in Unrouted(t) {
      HeldNotUnrouted(s, i);
      TurnsAscend(s);
      NotDoingStill(s, a, i);
      StillAwaited(s, a, i);
    } else if Holds(t, i) {
      RegisteredCancelled(s, a);
    }
    hide RouteStep, Cancelling, Unrouted, Holds;
  }

  lemma OtherId(s: State, a: Actor, i: nat)
    requires Cancelling(s) && UniqueIds(s) && Enabled(s, RouteMessage(a))
    requires IsRequest(s, i) && i != Doing(s, a).i && i in Unrouted(s)
    requires s.inbox[Doing(s, a).i].message.Request?
    ensures s.inbox[Doing(s, a).i].message.id != s.inbox[i].message.id
  {
    var j := Doing(s, a).i;
    HeldIsOpen(s, i);
    HeldIsOpen(s, j);
    if s.inbox[j].message.id == s.inbox[i].message.id {
      assert SameId(s, i, j) && SameId(s, j, i);
    }
  }

  lemma StillAwaited(s: State, a: Actor, i: nat)
    requires Cancelling(s) && UniqueIds(s) && Enabled(s, RouteMessage(a)) && CalledFits(s, i)
    requires i in Unrouted(s) && i in Unrouted(RouteStep(s, a))
    ensures Awaited(RouteStep(s, a), i)
  {
    TurnsAscend(s);
    NotDoingStill(s, a, i);
    if s.inbox[Doing(s, a).i].message.Request? { OtherId(s, a, i); }
    hide RouteStep, Cancelling, UniqueIds, QueuedAs, Unrouted, Holds, Enabled;
    var n: nat :| QueuedAs(s, i, n) && n <= s.reg.early[s.inbox[i].message.id].upTo;
    QueuedRoute(s, a, i, n);
    NumberBound(s, i, n);
    EarlyStays(s, a, i, n);
    RouteFrame(s, a);
  }

  lemma NumberBound(s: State, i: nat, n: nat)
    requires Cancelling(s) && QueuedAs(s, i, n)
    ensures n <= s.reg.lastQueued
  {
    assert PairFits(s, i, n);
  }

  // Routing another message keeps a remembered cancel, or puts a later one in
  // its place.
  lemma EarlyStays(s: State, a: Actor, i: nat, n: nat)
    requires Enabled(s, RouteMessage(a)) && IsRequest(s, i) && s.inbox[i].message.id in s.reg.early
    requires n <= s.reg.early[s.inbox[i].message.id].upTo && n <= s.reg.lastQueued
    requires s.inbox[Doing(s, a).i].message.Request? ==> s.inbox[Doing(s, a).i].message.id != s.inbox[i].message.id
    ensures var early, id := RouteStep(s, a).reg.early, s.inbox[i].message.id; id in early && n <= early[id].upTo
  {
    RouteTable(s, a);
    hide RouteStep;
  }

  lemma NotDoingStill(s: State, a: Actor, i: nat)
    requires Enabled(s, RouteMessage(a)) && i in Unrouted(RouteStep(s, a)) && Ascending(s.routed + Unrouted(s))
    ensures i != Doing(s, a).i
  {
    UnroutedRoute(s, a);
    var rest := Unrouted(RouteStep(s, a));
    hide RouteStep, Unrouted, Enabled;
    if a == TheReader {
      Apart(s.routed, rest, [Doing(s, a).i], i, Doing(s, a).i);
    } else {
      Apart(s.routed, [Doing(s, a).i], rest, i, Doing(s, a).i);
    }
  }

  lemma TurnsAscend(s: State)
    requires Staged(s)
    ensures Ascending(s.routed + Unrouted(s))
  {
  }

  // What is in different parts of an ascending list is different.
  lemma Apart(p: seq<nat>, q: seq<nat>, r: seq<nat>, i: nat, j: nat)
    requires Ascending(p + (q + r)) && ((i in q && j in r) || (j in q && i in r))
    ensures i != j
  {
    assert p + (q + r) == (p + q) + r;
    AscendingParts(p + q, r);
    assert (i in q ==> i in p + q) && (j in q ==> j in p + q);
  }

  // A request registered while a cancel for it is remembered starts cancelled.
  lemma RegisteredCancelled(s: State, a: Actor)
    requires Cancelling(s) && Enabled(s, RouteMessage(a)) && Registers(s, RouteMessage(a))
    requires CalledFits(s, Doing(s, a).i)
    ensures CalledFits(RouteStep(s, a), Doing(s, a).i)
  {
    var i := Doing(s, a).i;
    var t := RouteStep(s, a);
    var id := s.inbox[i].message.id;
    assert i in Unrouted(s);
    var n: nat :| QueuedAs(s, i, n) && n <= s.reg.early[id].upTo;
    OnlyNumber(s, a, n);
    RouteTable(s, a);
    RouteFrame(s, a);
    TurnsAscend(s);
    if i in Unrouted(t) { NotDoingStill(s, a, i); }
    hide RouteStep, Cancelling, QueuedAs;
  }

  lemma OnlyNumber(s: State, a: Actor, n: nat)
    requires Staged(s) && Enabled(s, RouteMessage(a)) && QueuedAs(s, Doing(s, a).i, n)
    ensures a == TheDrainer && Doing(s, a).arrival == Numbered(n)
  {
    assert Places(s, Doing(s, a).i) <= 1;
    RouteAsIn(s.strand, Doing(s, a).i, n);
  }

  lemma StillCalledKept(s: State, step: Step, i: nat)
    requires Cancelling(s) && Enabled(s, step) && !step.RouteMessage? && CalledFits(s, i)
    ensures CalledFits(Do(s, step), i)
  {
    var t := Do(s, step);
    var id := s.inbox[i].message.id;
    InboxKept(s, step);
    HoldsStep(s, step, i);
    if Holds(t, i) {
      CancelledKept(s, step, i);
    }
    if i in Unrouted(t) {
      AwaitedKept(s, step, i);
    }
  }

  lemma CancelledKept(s: State, step: Step, i: nat)
    requires Cancelling(s) && Enabled(s, step) && !step.RouteMessage? && CalledFits(s, i) && Holds(Do(s, step), i)
    ensures var id := s.inbox[i].message.id; id in Do(s, step).reg.inflight && Do(s, step).reg.inflight[id].cancelled
  {
    HoldsStep(s, step, i);
    TableFrame(s, step);
    assert HolderListed(s, i);
    if step.EraseEntry? { ErasedHolds(s, step.i); }
    hide Holds, Cancelling, StartStep;
  }

  lemma ErasedHolds(s: State, i: nat)
    requires Sound(s) && Enabled(s, EraseEntry(i))
    ensures HolderListed(s, i) && Holds(s, i)
  {
  }

  lemma AwaitedKept(s: State, step: Step, i: nat)
    requires Cancelling(s) && Enabled(s, step) && !step.RouteMessage? && CalledFits(s, i) && i in Unrouted(Do(s, step))
    ensures Awaited(Do(s, step), i)
  {
    var t := Do(s, step);
    var id := s.inbox[i].message.id;
    InboxKept(s, step);
    StillUnrouted(s, step, i);
    var n: nat :| QueuedAs(s, i, n) && n <= s.reg.early[id].upTo;
    QueuedKept(s, step, i, n);
    TableFrame(s, step);
    if step.FinishQueued? { QueueNotEmpty(s, i); }
    hide Cancelling, QueuedAs, StartStep;
    assert QueuedAs(t, i, n) && id in t.reg.early && n <= t.reg.early[id].upTo;
  }

  lemma StillUnrouted(s: State, step: Step, i: nat)
    requires Enabled(s, step) && !step.RouteMessage? && i < |s.inbox| && i in Unrouted(Do(s, step))
    ensures i in Unrouted(s)
  {
    if step.Receive? {
      hide RouteStep, StartStep;
    } else {
      UnroutedKept(s, step);
      hide Do;
    }
  }

  // A message still queued keeps the remembered cancels alive.
  lemma QueueNotEmpty(s: State, i: nat)
    requires Staged(s) && Enabled(s, FinishQueued) && i in Unrouted(s) && (exists n: nat :: QueuedAs(s, i, n))
    ensures s.reg.queuedRoutes > 1
  {
    var n: nat :| QueuedAs(s, i, n);
    RouteAsIn(s.strand, i, n);
  }

  lemma CalledRoute(s: State, a: Actor, i: nat)
    requires Cancelling(s) && UniqueIds(s) && Enabled(s, RouteMessage(a)) && CalledReached(s) && i in RouteStep(s, a).called
    ensures CalledFits(RouteStep(s, a), i)
  {
    RouteHits(s, a);
    hide RouteStep, CalledFits, Cancelling, UniqueIds;
    if i in s.called {
      StillCalledRoute(s, a, i);
    } else {
      NewlyCalled(s, a, i);
    }
  }

  lemma CalledKept(s: State, step: Step, i: nat)
    requires Cancelling(s) && Enabled(s, step) && !step.RouteMessage? && CalledReached(s) && i in Do(s, step).called
    ensures CalledFits(Do(s, step), i)
  {
    HistoryFrame(s, step);
    hide Do, CalledFits, Cancelling, Enabled;
    StillCalledKept(s, step, i);
  }

  lemma CalledReachedStep(s: State, step: Step)
    requires Cancelling(s) && UniqueIds(s) && Enabled(s, step) && CalledReached(s)
    ensures CalledReached(Do(s, step))
  {
    hide RouteStep, CalledFits, Cancelling, UniqueIds, CalledReached;
    var t := Do(s, step);
    forall i: nat | i in t.called ensures CalledFits(t, i) {
      if step.RouteMessage? {
        CalledRoute(s, step.a, i);
      } else {
        CalledKept(s, step, i);
      }
    }
    hide Do, Enabled;
    CalledAre(t);
  }

  lemma CalledAre(s: State)
    requires forall i: nat :: i in s.called ==> CalledFits(s, i)
    ensures CalledReached(s)
  {
  }

  lemma {:induction false} ReachedRun(states: seq<State>, k: nat)
    requires IsFreshRun(states) && k < |states|
    ensures UniqueIds(states[k]) && CalledReached(states[k]) && Cancelling(states[k])
  {
    FreshRunIsRun(states);
    CancellingRun(states, k);
    if k > 0 {
      ReachedRun(states, k - 1);
      assert FreshFollows(states[k - 1], states[k]);
      var step :| Enabled(states[k - 1], step) && Fresh(states[k - 1], step) && Do(states[k - 1], step) == states[k];
      UniqueIdsStep(states[k - 1], step);
      CalledReachedStep(states[k - 1], step);
      hide Do, UniqueIds, CalledReached, Cancelling;
    }
  }

  // A request that a cancel has been routed for - one in flight or waiting
  // to be routed at that point - has its token set for as long as it is in
  // flight, or has a remembered cancel that will set it. A handler of its
  // that returns is answered "cancelled".
  lemma CancelReaches(states: seq<State>, k: nat, i: nat)
    requires IsFreshRun(states) && k < |states| && i in states[k].called
    ensures CalledFits(states[k], i)
    ensures Enabled(states[k], EndWork(i, Result)) ==>
      Do(states[k], EndWork(i, Result)).running[i] == Erasing(Cancelled)
  {
    ReachedRun(states, k);
  }

  // A cancel on its way finds the request it names waiting, and is remembered
  // for it just when there is room.
  lemma RoomToRemember(s: State, a: Actor, i: nat)
    requires Cancelling(s) && UniqueIds(s) && Enabled(s, RouteMessage(a)) && s.inbox[Doing(s, a).i].message.Cancel?
    requires i < Doing(s, a).i && Asks(s, i, s.inbox[Doing(s, a).i].message.target) && i in Unrouted(s)
    ensures Remembers(s.reg, s.inbox[Doing(s, a).i].message.target, Doing(s, a).arrival) <==>
      |s.reg.early| < MAX_EARLY_CANCELLED || s.inbox[i].message.id in s.reg.early
  {
    var c := Doing(s, a).i;
    var id := s.inbox[c].message.target;
    UnroutedLater(s);
    assert EntryHeld(s, id);
    if id in s.reg.inflight {
      var h := s.reg.inflight[id].holder;
      HeldIsOpen(s, h);
      HeldIsOpen(s, i);
      HeldNotUnrouted(s, i);
      assert SameId(s, h, i) && SameId(s, i, h);
    }
    assert a == TheReader by {
      if a == TheDrainer { FirstIsDrained(s, i); }
    }
    assert DrainerTyped(s) && ReaderTyped(s);
    AheadIsQueued(s, i);
  }

  lemma FirstIsDrained(s: State, i: nat)
    requires Staged(s) && Enabled(s, RouteMessage(TheDrainer)) && i in Unrouted(s)
    ensures s.drainer.r.i <= i
  {
    var rest := RouteIndices(s.strand) + ReaderWaits(s.reader);
    var j := s.drainer.r.i;
    assert Turns(s) == (s.routed + [j]) + rest;
    AscendingParts(s.routed + [j], rest);
    assert j in s.routed + [j];
    assert Unrouted(s) == [j] + rest;
  }

  lemma AheadIsQueued(s: State, i: nat)
    requires InOrder(s) && Enabled(s, RouteMessage(TheReader)) && i in Unrouted(s) && i != s.reader.r.i
    ensures s.reg.queuedRoutes > 0
  {
  }

  // In every run with fresh ids, a cancel routed for a request received before
  // it and not answered yet calls for it, unless the request waits to be routed
  // and the table of remembered cancels is full without its id.
  lemma OnlyFullTableMisses(states: seq<State>, k: nat, a: Actor, i: nat)
    requires IsFreshRun(states) && k < |states| && Enabled(states[k], RouteMessage(a))
    requires var s := states[k]; var c := Doing(s, a).i;
      s.inbox[c].message.Cancel? && i < c && Asks(s, i, s.inbox[c].message.target) && (Holds(s, i) || i in Unrouted(s))
    ensures var s := states[k]; var c := Doing(s, a).i;
      i in RouteStep(s, a).called <==>
        i in s.called || Holds(s, i) || |s.reg.early| < 1024 || s.inbox[c].message.target in s.reg.early
  {
    var s := states[k];
    ReachedRun(states, k);
    RouteHits(s, a);
    HeldNotUnrouted(s, i);
    if i in Unrouted(s) { RoomToRemember(s, a, i); }
    hide RouteStep, Cancelling, UniqueIds, Holds, Unrouted, Remembers, IsFreshRun;
  }
}
