/** What each answer says: what kind of message it answers, whether the id was
    in use, and else how the handler ended and whether a cancel had hit the
    request by then. */
module RpcOutcome {
  import opened RpcRegistry
  import opened RpcDispatcher
  import opened RpcFrames
  import opened RpcAnswers
  import opened RpcInflight
  import opened RpcOrder
  import opened RpcCancel
  import opened RpcRefusal

  // ----- the token of a request is set just when a cancel has hit it --------

  ghost predicate WasHit(s: State, i: nat) {
    exists c: nat :: (c, i) in s.hits
  }

  predicate TokenSet(s: State, i: nat)
    requires IsRequest(s, i)
  {
    var id := s.inbox[i].message.id;
    id in s.reg.inflight && s.reg.inflight[id].cancelled
  }

  ghost predicate HitSet(s: State, i: nat) {
    IsRequest(s, i) && i !in Unrouted(s) && (Holds(s, i) ==> TokenSet(s, i))
  }

  ghost predicate HitsSet(s: State) {
    forall i: nat :: WasHit(s, i) ==> HitSet(s, i)
  }

  lemma HitSetRoute(s: State, a: Actor, i: nat)
    requires Staged(s) && Enabled(s, RouteMessage(a)) && HitSet(s, i)
    ensures HitSet(RouteStep(s, a), i)
  {
    RouteFrame(s, a);
    HoldsRoute(s, a, i);
    UnroutedRoute(s, a);
    if TokenSet(s, i) { TokenStays(s, a, s.inbox[i].message.id); }
    hide RouteStep, Staged, Unrouted, Holds;
  }

  lemma HitSetKept(s: State, step: Step, i: nat)
    requires Staged(s) && Enabled(s, step) && !step.RouteMessage? && HitSet(s, i)
    ensures HitSet(Do(s, step), i)
  {
    InboxKept(s, step);
    if i in Unrouted(Do(s, step)) { StillUnrouted(s, step, i); }
    if Holds(Do(s, step), i) { TokenKept(s, step, i); }
    hide Do, Staged, Unrouted, Holds;
  }

  lemma TokenKept(s: State, step: Step, i: nat)
    requires Sound(s) && Enabled(s, step) && !step.RouteMessage? && IsRequest(s, i) && Holds(Do(s, step), i)
    requires Holds(s, i) ==> TokenSet(s, i)
    ensures IsRequest(Do(s, step), i) && TokenSet(Do(s, step), i)
  {
    InboxKept(s, step);
    HoldsStep(s, step, i);
    TableFrame(s, step);
    assert HolderListed(s, i);
    if step.EraseEntry? { ErasedHolds(s, step.i); }
    hide Holds, Sound, StartStep;
  }

  // The request a cancel newly hits: the holder of the id it names, or the one
  // registered while it was remembered.
  lemma HitIsHolder(s: State, a: Actor, i: nat)
    requires Enabled(s, RouteMessage(a)) && WasHit(RouteStep(s, a), i) && !WasHit(s, i)
    ensures var m := s.inbox[Doing(s, a).i].message;
      || (m.Cancel? && m.target in s.reg.inflight && i == s.reg.inflight[m.target].holder)
      || (Registers(s, RouteMessage(a)) && i == Doing(s, a).i
          && m.id in s.reg.early && AppliesTo(s.reg.early[m.id], Doing(s, a).arrival))
  {
    RouteHits(s, a);
    hide RouteStep;
    var c: nat :| (c, i) in RouteStep(s, a).hits;
    assert (c, i) !in s.hits;
  }

  lemma NewlyHit(s: State, a: Actor, i: nat)
    requires Staged(s) && Enabled(s, RouteMessage(a)) && WasHit(RouteStep(s, a), i) && !WasHit(s, i)
    ensures Holds(RouteStep(s, a), i) && IsRequest(RouteStep(s, a), i) && TokenSet(RouteStep(s, a), i)
  {
    var m := s.inbox[Doing(s, a).i].message;
    HitIsHolder(s, a, i);
    RouteTable(s, a);
    RouteFrame(s, a);
    HoldsRoute(s, a, i);
    if m.Cancel? { assert EntryHeld(s, m.target); }
    hide RouteStep, Staged, Unrouted, Holds, WasHit;
  }

  lemma HitsSetStep(s: State, step: Step)
    requires Staged(s) && Enabled(s, step) && HitsSet(s)
    ensures HitsSet(Do(s, step))
  {
    StagedStep(s, step);
    var t := Do(s, step);
    forall i: nat | WasHit(t, i) ensures HitSet(t, i) {
      HitsSetAt(s, step, i);
    }
  }

  lemma HitsSetAt(s: State, step: Step, i: nat)
    requires Enabled(s, step) && Staged(s) && Staged(Do(s, step)) && HitsSet(s) && WasHit(Do(s, step), i)
    ensures HitSet(Do(s, step), i)
  {
    if !step.RouteMessage? {
      HistoryFrame(s, step);
      assert WasHit(s, i);
      HitSetKept(s, step, i);
    } else if WasHit(s, i) {
      HitSetRoute(s, step.a, i);
    } else {
      NewlyHit(s, step.a, i);
      HeldNotUnrouted(RouteStep(s, step.a), i);
    }
    hide *;
  }

  lemma NoHitsYet(states: seq<State>)
    requires IsRun(states)
    ensures HitsSet(states[0])
  {
  }

  lemma HitsSetFollows(s: State, t: State)
    requires Staged(s) && Follows(s, t) && HitsSet(s)
    ensures HitsSet(t)
  {
    var step :| Enabled(s, step) && Do(s, step) == t;
    HitsSetStep(s, step);
  }

  lemma {:induction false} HitsSetRun(states: seq<State>, k: nat)
    requires IsRun(states) && k < |states|
    ensures HitsSet(states[k])
    decreases k
  {
    hide *;
    if k == 0 {
      NoHitsYet(states);
    } else {
      HitsSetRun(states, k - 1);
      StagedRun(states, k - 1);
      StepOf(states, k);
      HitsSetFollows(states[k - 1], states[k]);
    }
  }

  // A handler that ends finds its token set just when a cancel has hit it.
  lemma TokenIsHit(states: seq<State>, k: nat, i: nat, how: Outcome)
    requires IsRun(states) && k < |states| && Enabled(states[k], EndWork(i, how))
    ensures TokenSet(states[k], i) <==> WasHit(states[k], i)
  {
    CancellingRun(states, k);
    HitsSetRun(states, k);
    hide IsRun;
    EndingToken(states[k], i, how);
  }

  lemma EndingToken(s: State, i: nat, how: Outcome)
    requires Cancelling(s) && HitsSet(s) && Enabled(s, EndWork(i, how))
    ensures TokenSet(s, i) <==> WasHit(s, i)
  {
    assert Holds(s, i) && HolderListed(s, i);
    if TokenSet(s, i) {
      assert Explained(s, s.inbox[i].message.id);
    }
    if WasHit(s, i) {
      assert HitSet(s, i);
    }
    hide Staged, Remembered, Unrouted;
  }

  // Any payload can arrive while the read loop waits, and a handler at work
  // can return, be cancelled or fail.
  lemma OpenSteps(states: seq<State>, k: nat, i: nat, p: Payload)
    requires IsRun(states) && k < |states|
    ensures Enabled(states[k], Receive(p)) <==> states[k].reader == Waiting
    ensures i in states[k].running && states[k].running[i] == Working ==>
      && Enabled(states[k], EndWork(i, Result)) && Enabled(states[k], EndWork(i, Cancelled)) && Enabled(states[k], EndWork(i, Failed))
  {
    SoundRun(states, k);
    hide IsRun, Conserved, Listed;
  }

  // ----- runs and their steps -----------------------------------------------

  ghost predicate Taken(s: State, step: Step, t: State) {
    Enabled(s, step) && Do(s, step) == t
  }

  // The run takes these steps.
  ghost predicate Takes(states: seq<State>, steps: seq<Step>) {
    && |states| == |steps| + 1 && states[0] == Initial()
    && forall k :: 0 <= k < |steps| ==> Taken(states[k], steps[k], states[k + 1])
  }

  lemma TakesRun(states: seq<State>, steps: seq<Step>)
    requires Takes(states, steps)
    ensures IsRun(states)
  {
    forall k | 0 < k < |states| ensures Follows(states[k - 1], states[k]) {
      assert Taken(states[k - 1], steps[k - 1], states[k]);
    }
  }

  lemma StepsMore(states: seq<State>, steps: seq<Step>, step: Step)
    requires |states| > 1 && Takes(states[..|states| - 1], steps) && Taken(states[|states| - 2], step, states[|states| - 1])
    ensures Takes(states, steps + [step])
  {
    var n := |states| - 1;
    assert forall k :: 0 <= k < n ==> states[..n][k] == states[k];
    hide Taken;
  }

  lemma StartOfRun(states: seq<State>)
    requires IsRun(states) && |states| > 1
    ensures IsRun(states[..|states| - 1])
  {
    hide Follows;
  }

  // Every run takes some steps.
  lemma {:induction false} StepsOf(states: seq<State>) returns (steps: seq<Step>)
    requires IsRun(states)
    ensures Takes(states, steps)
  {
    if |states| == 1 {
      return [];
    }
    StartOfRun(states);
    var k := |states| - 1;
    StepOf(states, k);
    hide Takes, IsRun, Do, Enabled;
    steps := StepsOf(states[..k]);
    var step :| Enabled(states[k - 1], step) && Do(states[k - 1], step) == states[k];
    StepsMore(states, steps, step);
    steps := steps + [step];
  }

  // ----- how handlers end ---------------------------------------------------

  // The step ends the handler of request i, which is therefore answered so.
  ghost predicate EndsAs(s: State, step: Step, i: nat, answer: Outcome) {
    && step.EndWork? && step.i == i
    && match answer
       case Result => step.how == Result && !WasHit(s, i)
       case Cancelled => step.how == Cancelled || (step.how == Result && WasHit(s, i))
       case Failed => step.how == Failed
       case _ => false
  }

  ghost predicate Ended(states: seq<State>, steps: seq<Step>, k: nat, i: nat, answer: Outcome) {
    exists j: nat :: j < k && j < |states| && j < |steps| && EndsAs(states[j], steps[j], i, answer)
  }

  predicate Answering(s: State, i: nat, answer: Outcome) {
    i in s.running && (s.running[i] == Erasing(answer) || s.running[i] == Sending(answer))
  }

  // What the task of request i has answered or is about to.
  ghost predicate GoesOut(s: State, i: nat, answer: Outcome) {
    Answering(s, i, answer) || (Closing(i, answer) in s.closed && IsServed(answer))
  }

  lemma EndWorkAnswers(s: State, i: nat, how: Outcome)
    requires Enabled(s, EndWork(i, how)) && (TokenSet(s, i) <==> WasHit(s, i))
    ensures exists answer :: Answering(Do(s, EndWork(i, how)), i, answer) && EndsAs(s, EndWork(i, how), i, answer)
    ensures forall answer :: EndsAs(s, EndWork(i, how), i, answer) ==> Answering(Do(s, EndWork(i, how)), i, answer)
  {
    hide WasHit;
    assert EndsAs(s, EndWork(i, how), i, if how == Result && TokenSet(s, i) then Cancelled else how);
  }

  // Only ending its handler gives a request an answer of its task's.
  lemma NewlyOut(s: State, step: Step, i: nat, answer: Outcome)
    requires Enabled(s, step) && Sound(s) && GoesOut(Do(s, step), i, answer)
    requires step.EndWork? ==> (TokenSet(s, step.i) <==> WasHit(s, step.i))
    ensures GoesOut(s, i, answer) || EndsAs(s, step, i, answer)
  {
    if step.EndWork? && step.i == i {
      EndWorkAnswers(s, i, step.how);
    } else if MovesTask(step) {
      if step.LookUp? { LookedUpHolds(s, step.i); }
      hide Sound;
      TaskOut(s, step, i, answer);
    } else {
      hide Sound;
      TaskFrame(s, step);
      if IsServed(answer) { NotServed(s, step, Closing(i, answer)); }
    }
    hide Do, Sound;
  }

  lemma TaskOut(s: State, step: Step, i: nat, answer: Outcome)
    requires Enabled(s, step) && MovesTask(step) && !(step.EndWork? && step.i == i) && GoesOut(Do(s, step), i, answer)
    requires step.LookUp? ==> s.inbox[step.i].message.id in s.reg.inflight
    ensures GoesOut(s, i, answer)
  {
    if Answering(Do(s, step), i, answer) {
      TaskAnswering(s, step, i, answer);
    } else if step == SendAnswer(i) {
      SentWas(s, i);
    } else {
      TaskClosed(s, step, Closing(i, answer));
    }
    hide Do, Enabled;
  }

  lemma SentWas(s: State, i: nat)
    requires Enabled(s, SendAnswer(i))
    ensures Do(s, SendAnswer(i)).closed == s.closed + [Closing(i, s.running[i].how)] && s.running[i] == Sending(s.running[i].how)
  {
  }

  lemma TaskAnswering(s: State, step: Step, i: nat, answer: Outcome)
    requires Enabled(s, step) && MovesTask(step) && !(step.EndWork? && step.i == i)
    requires step.LookUp? ==> s.inbox[step.i].message.id in s.reg.inflight
    requires Answering(Do(s, step), i, answer)
    ensures Answering(s, i, answer)
  {
    hide FirstOfLane;
  }

  lemma TaskClosed(s: State, step: Step, c: Closing)
    requires Enabled(s, step) && MovesTask(step) && step != SendAnswer(c.i) && c in Do(s, step).closed
    ensures c in s.closed
  {
    hide FirstOfLane;
  }

  lemma NotServed(s: State, step: Step, c: Closing)
    requires Enabled(s, step) && !MovesTask(step) && IsServed(c.how)
    ensures c in Do(s, step).closed ==> c in s.closed
  {
    if !Closes(step) {
      ClosedFrame(s, step);
    } else if step.RouteMessage? {
      RouteEffect(s, step.a);
    }
    hide RouteStep;
  }

  lemma StillOut(s: State, step: Step, i: nat, answer: Outcome)
    requires Enabled(s, step) && Sound(s) && PhasesServed(s) && GoesOut(s, i, answer)
    ensures GoesOut(Do(s, step), i, answer)
  {
    if Closing(i, answer) in s.closed && IsServed(answer) {
      ClosedGrows(s, step);
    } else {
      OnlyRunning(s, i);
      hide Sound;
      if !MovesTask(step) { TaskFrame(s, step); } else { OutOnward(s, step, i, answer); }
    }
    hide Do, Enabled, Sound, PhasesServed;
  }

  lemma OutOnward(s: State, step: Step, i: nat, answer: Outcome)
    requires Enabled(s, step) && MovesTask(step) && PhasesServed(s) && i in s.running && i !in s.ready && i !in s.serial
    requires s.running[i] == Erasing(answer) || s.running[i] == Sending(answer)
    ensures GoesOut(Do(s, step), i, answer)
  {
    hide FirstOfLane;
    if step == SendAnswer(i) {
      assert Closing(i, answer) in Do(s, step).closed;
    }
  }

  // ----- over runs ----------------------------------------------------------

  // What holds of a state of a run and of the step it takes.
  lemma AtStep(states: seq<State>, steps: seq<Step>, k: nat)
    requires Takes(states, steps) && k < |steps|
    ensures Taken(states[k], steps[k], states[k + 1]) && Sound(states[k]) && PhasesServed(states[k])
    ensures steps[k].EndWork? && IsRequest(states[k], steps[k].i) ==>
      (TokenSet(states[k], steps[k].i) <==> WasHit(states[k], steps[k].i))
  {
    TakesRun(states, steps);
    hide IsRun, Sound, PhasesServed, Do, TokenSet, WasHit;
    SoundRun(states, k);
    PhasesRun(states, k);
    assert Taken(states[k], steps[k], states[k + 1]);
    if steps[k].EndWork? { TokenIsHit(states, k, steps[k].i, steps[k].how); }
  }

  lemma OutFollows(s: State, step: Step, t: State, i: nat, answer: Outcome)
    requires Taken(s, step, t) && Sound(s) && PhasesServed(s)
    requires step.EndWork? && IsRequest(s, step.i) ==> (TokenSet(s, step.i) <==> WasHit(s, step.i))
    ensures GoesOut(t, i, answer) ==> GoesOut(s, i, answer) || EndsAs(s, step, i, answer)
    ensures GoesOut(s, i, answer) || EndsAs(s, step, i, answer) ==> GoesOut(t, i, answer)
  {
    hide Do, Sound, PhasesServed, GoesOut, TokenSet, WasHit;
    if GoesOut(t, i, answer) { NewlyOut(s, step, i, answer); }
    if GoesOut(s, i, answer) {
      StillOut(s, step, i, answer);
    } else if EndsAs(s, step, i, answer) {
      EndWorkAnswers(s, i, step.how);
      assert Answering(t, i, answer);
      AnsweringGoesOut(t, i, answer);
    }
  }

  lemma AnsweringGoesOut(s: State, i: nat, answer: Outcome)
    requires Answering(s, i, answer)
    ensures GoesOut(s, i, answer)
  {
  }

  lemma EndedMore(states: seq<State>, steps: seq<Step>, k: nat, i: nat, answer: Outcome)
    requires k < |states| && k < |steps|
    ensures Ended(states, steps, k + 1, i, answer) <==> Ended(states, steps, k, i, answer) || EndsAs(states[k], steps[k], i, answer)
  {
    hide EndsAs;
    if Ended(states, steps, k + 1, i, answer) && !EndsAs(states[k], steps[k], i, answer) {
      var j: nat :| j < k + 1 && j < |states| && j < |steps| && EndsAs(states[j], steps[j], i, answer);
      assert j < k;
    }
  }

  // The answers out are those of the handlers that have ended.
  lemma {:induction false} OutRun(states: seq<State>, steps: seq<Step>, k: nat, i: nat, answer: Outcome)
    requires Takes(states, steps) && k <= |steps|
    ensures GoesOut(states[k], i, answer) <==> Ended(states, steps, k, i, answer)
    decreases k
  {
    if k == 0 {
      NoneOut(states, steps, i, answer);
    } else {
      hide *;
      OutRun(states, steps, k - 1, i, answer);
      AtStep(states, steps, k - 1);
      OutFollows(states[k - 1], steps[k - 1], states[k], i, answer);
      EndedMore(states, steps, k - 1, i, answer);
    }
  }

  lemma NoneOut(states: seq<State>, steps: seq<Step>, i: nat, answer: Outcome)
    requires Takes(states, steps)
    ensures !GoesOut(states[0], i, answer) && !Ended(states, steps, 0, i, answer)
  {
  }

  lemma {:induction false} ClosedTwice(closed: seq<Closing>, c: Closing, d: Closing)
    requires c in closed && d in closed && c != d && c.i == d.i
    ensures ClosedAt(closed, c.i) > 1
  {
    if closed[0] == c {
      ClosedIn(closed[1..], d);
    } else if closed[0] == d {
      ClosedIn(closed[1..], c);
    } else {
      ClosedTwice(closed[1..], c, d);
    }
  }

  // A request has one answer, and no other on its way.
  lemma OneAnswer(s: State, c: Closing, answer: Outcome)
    requires Conserved(s) && c in s.closed && GoesOut(s, c.i, answer)
    ensures answer == c.how && IsServed(c.how)
  {
    assert Places(s, c.i) <= 1;
    ClosedIn(s.closed, c);
    if c != Closing(c.i, answer) && Closing(c.i, answer) in s.closed {
      ClosedTwice(s.closed, c, Closing(c.i, answer));
    }
  }

  // In every run the answer of a request is Result, Cancelled or Failed just
  // when its handler has ended, and tells how: Failed if the handler failed,
  // Cancelled if it was cancelled or if it returned after a cancel had hit the
  // request, and Result if it returned with none.
  lemma AnswerTells(states: seq<State>, steps: seq<Step>, k: nat, c: Closing)
    requires Takes(states, steps) && k <= |steps| && c in states[k].closed
    ensures IsServed(c.how) <==> exists j: nat :: j < k && steps[j].EndWork? && steps[j].i == c.i
    ensures forall j: nat :: j < k && steps[j].EndWork? && steps[j].i == c.i ==> EndsAs(states[j], steps[j], c.i, c.how)
  {
    TakesRun(states, steps);
    SoundRun(states, k);
    hide IsRun, Takes, Sound;
    if IsServed(c.how) {
      OutRun(states, steps, k, c.i, c.how);
      var j: nat :| j < k && j < |steps| && EndsAs(states[j], steps[j], c.i, c.how);
    }
    forall j: nat | j < k && steps[j].EndWork? && steps[j].i == c.i ensures EndsAs(states[j], steps[j], c.i, c.how) && IsServed(c.how) {
      EndedTells(states, steps, j, k, c);
    }
  }

  lemma EndedTells(states: seq<State>, steps: seq<Step>, j: nat, k: nat, c: Closing)
    requires Takes(states, steps) && j < k <= |steps| && c in states[k].closed
    requires steps[j].EndWork? && steps[j].i == c.i
    ensures EndsAs(states[j], steps[j], c.i, c.how) && IsServed(c.how)
  {
    TakesRun(states, steps);
    SoundRun(states, k);
    AtStep(states, steps, j);
    hide IsRun, Takes, Listed, Typed, Conserved, TokenSet, WasHit, Do, GoesOut;
    EndWorkAnswers(states[j], c.i, steps[j].how);
    var answer :| EndsAs(states[j], steps[j], c.i, answer);
    assert Ended(states, steps, k, c.i, answer);
    OutRun(states, steps, k, c.i, answer);
    OneAnswer(states[k], c, answer);
  }

  // ----- the other answers --------------------------------------------------

  predicate SaysKind(s: State, c: Closing) {
    && c.i < |s.inbox|
    && match s.inbox[c.i].message
       case Malformed => c.how == Error
       case Rejected => c.how == Error
       case Request(_, _, _) => c.how == InUse || IsServed(c.how)
       case _ => c.how == Nothing
  }

  ghost predicate AllSay(s: State) {
    forall c :: c in s.closed ==> SaysKind(s, c)
  }

  lemma SaysNew(s: State, step: Step, c: Closing)
    requires Enabled(s, step) && Sound(s) && PhasesServed(s) && c in Do(s, step).closed && c !in s.closed
    ensures SaysKind(s, c)
  {
    if !Closes(step) {
      ClosedFrame(s, step);
    } else if step.RouteMessage? {
      RouteEffect(s, step.a);
      hide RouteStep, Conserved, Listed;
    } else {
      NewlyClosed(s, step, c);
      hide Do, Conserved, Listed, Enabled;
      SaysOther(s, step, c);
    }
  }

  lemma SaysOther(s: State, step: Step, c: Closing)
    requires Enabled(s, step) && Typed(s) && PhasesServed(s) && Closes(step) && !step.RouteMessage?
    requires
      || (step.CheckQueue? && c == Closing(s.reader.i, Error) && s.inbox[s.reader.i].message.Malformed?)
      || (step.RefuseRequest? && c == Closing(Doing(s, step.a).i, InUse))
      || (step.EndHandler? && c == Closing(s.drainer.i, Nothing))
      || (step.SendAnswer? && c == Closing(step.i, s.running[step.i].how))
    ensures SaysKind(s, c)
  {
    assert ReaderTyped(s) && DrainerTyped(s);
  }

  lemma AllSayStep(s: State, t: State)
    requires Follows(s, t) && Sound(s) && PhasesServed(s) && AllSay(s)
    ensures AllSay(t)
  {
    var step :| Enabled(s, step) && Do(s, step) == t;
    InboxKept(s, step);
    forall c | c in t.closed ensures SaysKind(t, c) {
      if c in s.closed { assert SaysKind(s, c); } else { SaysNew(s, step, c); }
    }
    hide Do, Sound, PhasesServed, Enabled;
  }

  lemma NoneSaidYet(states: seq<State>)
    requires IsRun(states)
    ensures AllSay(states[0])
  {
  }

  // A payload that cannot be routed is answered with an error, a request as
  // its task says or that its id is in use, and nothing else is answered.
  lemma {:induction false} AnswersByKind(states: seq<State>, k: nat)
    requires IsRun(states) && k < |states|
    ensures forall c :: c in states[k].closed ==> SaysKind(states[k], c)
    decreases k
  {
    hide *;
    if k == 0 {
      NoneSaidYet(states);
    } else {
      AnswersByKind(states, k - 1);
      SaysAll(states[k - 1]);
      SoundRun(states, k - 1);
      PhasesRun(states, k - 1);
      StepOf(states, k);
      AllSayStep(states[k - 1], states[k]);
    }
    SaysAll(states[k]);
  }

  lemma SaysAll(s: State)
    ensures AllSay(s) <==> forall c :: c in s.closed ==> SaysKind(s, c)
  {
  }

  lemma ClosedIsOver(s: State, c: Closing)
    requires Staged(s) && c in s.closed
    ensures !Holds(s, c.i) && !exists a :: Busy(s, a) && Doing(s, a).i == c.i
  {
    assert IsClosed(s, c.i);
    if Holds(s, c.i) || exists a :: Busy(s, a) && Doing(s, a).i == c.i {
      HeldIsOpen(s, c.i);
    }
    hide Staged, Holds, IsClosed;
  }

  // A closed request is neither refused nor accepted but as its answer says.
  lemma ClosedSettles(s: State, c: Closing)
    requires Staged(s) && c in s.closed
    ensures Refused(s, c.i) ==> c.how == InUse
    ensures Accepted(s, c.i) ==> IsServed(c.how)
  {
    ClosedIsOver(s, c);
    assert Places(s, c.i) <= 1;
    ClosedIn(s.closed, c);
    hide Holds, Staged, Unrouted;
    forall d | d in s.closed && d.i == c.i ensures d == c {
      if d != c { ClosedTwice(s.closed, c, d); }
    }
  }

  lemma RoutedSettles(s: State, a: Actor)
    requires Enabled(s, RouteMessage(a)) && s.inbox[Doing(s, a).i].message.Request?
    ensures var i := Doing(s, a).i;
      if s.inbox[i].message.id in s.reg.inflight then Refused(RouteStep(s, a), i) else Accepted(RouteStep(s, a), i)
  {
    var i := Doing(s, a).i;
    RouteEffect(s, a);
    HoldsRoute(s, a, i);
    if s.inbox[i].message.id in s.reg.inflight {
      assert Busy(RouteStep(s, a), a) && Doing(RouteStep(s, a), a) == AtRefuse(i);
    }
    hide RouteStep;
  }

  // A request is answered "in use" exactly when its id was held as it was
  // routed.
  lemma RefusedExactly(states: seq<State>, steps: seq<Step>, j: nat, k: nat, c: Closing)
    requires Takes(states, steps) && j < k <= |steps| && c in states[k].closed
    requires steps[j].RouteMessage? && Taken(states[j], steps[j], states[j + 1])
    requires Doing(states[j], steps[j].a).i == c.i && states[j].inbox[c.i].message.Request?
    ensures c.how == InUse <==> states[j].inbox[c.i].message.id in states[j].reg.inflight
  {
    TakesRun(states, steps);
    RoutedSettles(states[j], steps[j].a);
    hide IsRun, Takes, RouteStep, Refused, Accepted, Staged;
    StagedRun(states, k);
    StaysSo(states, j + 1, k, c.i, c.i);
    ClosedSettles(states[k], c);
  }
}
