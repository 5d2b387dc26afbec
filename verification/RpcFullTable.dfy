/** The cancel that is lost: a run in which the table of remembered cancels
    fills up while a request waits to be parsed. */
module RpcFullTable {
  import opened RpcRegistry
  import opened RpcDispatcher
  import opened RpcFrames
  import opened RpcCancel

  // A payload over the size the read loop parses itself.
  const DEFERRED := Payload(INLINE_PARSE_LIMIT + 1, Request(0, Concurrent, ""))

  // The request waits to be parsed, alone, and n cancels for other ids are
  // remembered.
  ghost predicate Filled(s: State, n: nat) {
    && |s.inbox| == n + 1 && s.inbox[0] == DEFERRED
    && s.reader == Waiting && s.drainer == Idle && s.strand == [Route(0, 1, DEFERRED.size)]
    && s.serial == [] && s.ready == multiset{} && s.running == map[]
    && s.reg.inflight == map[] && s.reg.queuedRoutes == 1
    && |s.reg.early| == n && (forall id :: id in s.reg.early ==> 1 <= id <= n)
    && 0 !in s.called
  }

  // The state once a cancel has been received and is about to be routed.
  ghost predicate Arrived(s: State, t: State, id: int) {
    t == s.(inbox := s.inbox + [Payload(0, Message.Cancel(id))], reader := Routes(AtMessage(|s.inbox|, OnArrival)))
  }

  lemma Extends(states: seq<State>, step: Step) returns (longer: seq<State>)
    requires IsFreshRun(states) && Enabled(states[|states| - 1], step) && Fresh(states[|states| - 1], step)
    ensures IsFreshRun(longer) && longer == states + [Do(states[|states| - 1], step)]
  {
    hide Do, Enabled, Fresh;
    longer := states + [Do(states[|states| - 1], step)];
    forall k | 0 < k < |longer| ensures FreshFollows(longer[k - 1], longer[k]) {
      if k < |states| { assert FreshFollows(states[k - 1], states[k]); }
    }
  }

  lemma Deferred() returns (states: seq<State>)
    ensures IsFreshRun(states) && Filled(states[|states| - 1], 0)
  {
    states := [Initial()];
    states := Extends(states, Receive(DEFERRED));
    states := Extends(states, TakeSlot);
    states := Extends(states, PostRoute);
  }

  lemma CancelArrives(states: seq<State>, n: nat, id: int) returns (longer: seq<State>)
    requires IsFreshRun(states) && Filled(states[|states| - 1], n)
    ensures IsFreshRun(longer) && states <= longer && Arrived(states[|states| - 1], longer[|longer| - 1], id)
  {
    longer := Extends(states, Receive(Payload(0, Message.Cancel(id))));
    longer := Extends(longer, CheckQueue);
    hide IsFreshRun;
  }

  // Routing it leaves all but the table, and the request uncalled.
  lemma CancelRouted(s: State, n: nat, id: nat, t: State)
    requires Filled(s, n) && Arrived(s, t, id) && (id != 0 || n >= MAX_EARLY_CANCELLED)
    ensures Enabled(t, RouteMessage(TheReader))
    ensures var u := RouteStep(t, TheReader);
      && u.inbox == t.inbox && u.reader == Waiting && u.drainer == Idle && u.strand == s.strand && 0 !in u.called
      && u.serial == [] && u.ready == multiset{} && u.running == map[]
      && u.reg == CancelId(s.reg, id, OnArrival, n + 1)
  {
    RouteFrame(t, TheReader);
    RouteTable(t, TheReader);
    RouteEffect(t, TheReader);
    RouteHits(t, TheReader);
    hide RouteStep;
    assert id == 0 ==> 0 !in s.reg.early;
    assert !Holds(t, 0) && !(Asks(t, 0, id) && Remembers(t.reg, id, OnArrival));
  }

  lemma {:induction false} Filling(n: nat) returns (states: seq<State>)
    requires n <= MAX_EARLY_CANCELLED
    ensures IsFreshRun(states) && Filled(states[|states| - 1], n)
    decreases n
  {
    if n == 0 {
      states := Deferred();
    } else {
      states := Filling(n - 1);
      var s := states[|states| - 1];
      states := CancelArrives(states, n - 1, n);
      CancelRouted(s, n - 1, n, states[|states| - 1]);
      states := Extends(states, RouteMessage(TheReader));
      hide RouteStep, IsFreshRun;
    }
  }

  // The request waits to be routed, its cancel is about to be, and the table
  // is full without it.
  ghost predicate Full(s: State) {
    && Enabled(s, RouteMessage(TheReader)) && s.inbox[s.reader.r.i].message == Message.Cancel(0)
    && 0 < s.reader.r.i && Asks(s, 0, 0) && 0 in Unrouted(s)
    && |s.reg.early| == MAX_EARLY_CANCELLED && 0 !in s.reg.early
  }

  // The request is next, and nothing of its cancel is left.
  ghost predicate Missed(s: State) {
    && Enabled(s, TakeItem) && s.strand == [Route(0, 1, DEFERRED.size)] && |s.inbox| > 0 && s.inbox[0] == DEFERRED
    && s.reg.inflight == map[] && 0 !in s.reg.early && 0 !in s.called
  }

  // The request is in flight with its token clear.
  ghost predicate Clear(s: State) {
    s.reg.inflight == map[0 := Entry(0, false)] && 0 !in s.called
  }

  lemma FullTable() returns (states: seq<State>)
    ensures IsFreshRun(states) && Full(states[|states| - 1]) && Missed(RouteStep(states[|states| - 1], TheReader))
  {
    states := Filling(MAX_EARLY_CANCELLED);
    var s := states[|states| - 1];
    states := CancelArrives(states, MAX_EARLY_CANCELLED, 0);
    CancelRouted(s, MAX_EARLY_CANCELLED, 0, states[|states| - 1]);
    hide RouteStep, IsFreshRun;
  }

  // The request is then taken from the queue and registered.
  lemma RequestRouted(states: seq<State>) returns (longer: seq<State>)
    requires IsFreshRun(states) && Missed(states[|states| - 1])
    ensures IsFreshRun(longer) && |longer| == |states| + 2 && states <= longer && Clear(longer[|longer| - 1])
  {
    longer := Extends(states, TakeItem);
    var t := longer[|longer| - 1];
    RouteTable(t, TheDrainer);
    RouteHits(t, TheDrainer);
    longer := Extends(longer, RouteMessage(TheDrainer));
    hide RouteStep, IsFreshRun;
  }

  // A run with fresh ids in which a request waits to be routed while its
  // cancel is, and it goes in flight with its token clear all the same.
  lemma CancelForgotten() returns (states: seq<State>, k: nat)
    ensures IsFreshRun(states) && k + 3 == |states| - 1
    ensures Full(states[k]) && states[k + 1] == RouteStep(states[k], TheReader) && Clear(states[k + 3])
  {
    var before := FullTable();
    k := |before| - 1;
    hide RouteStep, IsFreshRun, Full, Missed, Clear;
    FullRoutes(before[k]);
    var routed := Extends(before, RouteMessage(TheReader));
    states := RequestRouted(routed);
    assert states[k] == routed[k] && states[k + 1] == routed[k + 1];
  }

  lemma FullRoutes(s: State)
    requires Full(s)
    ensures Enabled(s, RouteMessage(TheReader))
  {
  }
}
