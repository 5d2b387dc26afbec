/** A request refused because its id is in use disturbs nothing: the holder of
    the id gets its own answer all the same. */
module RpcRefusal {
  import opened RpcRegistry
  import opened RpcDispatcher
  import opened RpcFrames
  import opened RpcAnswers
  import opened RpcInflight

  // What a handler's task answers.
  predicate IsServed(how: Outcome) {
    how == Result || how == Cancelled || how == Failed
  }

  ghost predicate PhasesServed(s: State) {
    forall i :: i in s.running && (s.running[i].Erasing? || s.running[i].Sending?) ==> IsServed(s.running[i].how)
  }

  // The request got past registration: it is in flight, about to be answered
  // by its task, or so answered.
  ghost predicate Accepted(s: State, h: nat) {
    Holds(s, h) || h in s.running || exists c :: c in s.closed && c.i == h && IsServed(c.how)
  }

  // The request was refused, or is about to be.
  ghost predicate Refused(s: State, i: nat) {
    (exists a :: Busy(s, a) && Doing(s, a) == AtRefuse(i)) || Closing(i, InUse) in s.closed
  }

  lemma PhasesStep(s: State, step: Step)
    requires Enabled(s, step) && Sound(s) && PhasesServed(s)
    ensures PhasesServed(Do(s, step))
  {
    if !MovesTask(step) {
      TaskFrame(s, step);
    } else {
      if step.LookUp? { LookedUpHolds(s, step.i); }
      hide Sound;
      PhasesTask(s, step);
    }
    hide Do, Sound;
  }

  lemma PhasesTask(s: State, step: Step)
    requires Enabled(s, step) && MovesTask(step) && PhasesServed(s)
    requires step.LookUp? ==> s.inbox[step.i].message.id in s.reg.inflight
    ensures PhasesServed(Do(s, step))
  {
    hide FirstOfLane;
  }

  lemma ClosedGrows(s: State, step: Step)
    requires Enabled(s, step)
    ensures forall c :: c in s.closed ==> c in Do(s, step).closed
  {
    if !Closes(step) {
      ClosedFrame(s, step);
      hide Do;
    } else if step.RouteMessage? {
      RouteEffect(s, step.a);
      hide RouteStep;
    }
  }

  // A task leaves only with its answer.
  lemma RunsOn(s: State, step: Step, h: nat)
    requires Enabled(s, step) && PhasesServed(s) && h in s.running
    ensures Accepted(Do(s, step), h)
  {
    if !MovesTask(step) {
      TaskFrame(s, step);
    } else if step == SendAnswer(h) {
      assert Closing(h, s.running[h].how) in Do(s, step).closed;
    }
    hide RouteStep, StartStep, Holds;
  }

  lemma AcceptedStep(s: State, step: Step, h: nat)
    requires Enabled(s, step) && Sound(s) && PhasesServed(s) && Accepted(s, h)
    ensures Accepted(Do(s, step), h)
  {
    hide Holds, Sound, PhasesServed, Do, Enabled;
    if h in s.running {
      RunsOn(s, step, h);
    } else if Holds(s, h) {
      HoldsStep(s, step, h);
      if step.EraseEntry? && step.i == h { ErasedRuns(s, h); }
    } else {
      ClosedGrows(s, step);
    }
  }

  lemma ErasedRuns(s: State, h: nat)
    requires Enabled(s, EraseEntry(h))
    ensures h in s.running
  {
  }

  lemma RefusedStep(s: State, step: Step, i: nat)
    requires Enabled(s, step) && Refused(s, i)
    ensures Refused(Do(s, step), i)
  {
    ClosedGrows(s, step);
    if a :| Busy(s, a) && Doing(s, a) == AtRefuse(i) {
      if step == RefuseRequest(a) {
        assert Closing(i, InUse) in Do(s, step).closed;
      } else {
        StaysBusy(s, step, a, i);
      }
    }
    hide Do, Enabled;
  }

  lemma StaysBusy(s: State, step: Step, a: Actor, i: nat)
    requires Enabled(s, step) && Busy(s, a) && Doing(s, a) == AtRefuse(i) && step != RefuseRequest(a)
    ensures Busy(Do(s, step), a) && Doing(Do(s, step), a) == AtRefuse(i)
  {
    if a == TheReader {
      ReaderFrame(s, step);
    } else {
      DrainerFrame(s, step);
    }
    hide Do;
  }

  // The same over a step of a run.
  lemma OneStep(s: State, t: State, h: nat, i: nat)
    requires Follows(s, t) && Sound(s) && PhasesServed(s)
    ensures PhasesServed(t)
    ensures Accepted(s, h) ==> Accepted(t, h)
    ensures Refused(s, i) ==> Refused(t, i)
    ensures IsRequest(s, i) ==> IsRequest(t, i)
  {
    hide Do, Enabled, Sound, PhasesServed, Accepted, Refused;
    var step :| Enabled(s, step) && Do(s, step) == t;
    PhasesStep(s, step);
    InboxKept(s, step);
    if Accepted(s, h) { AcceptedStep(s, step, h); }
    if Refused(s, i) { RefusedStep(s, step, i); }
  }

  lemma StepOf(states: seq<State>, k: nat)
    requires IsRun(states) && 0 < k < |states|
    ensures Follows(states[k - 1], states[k])
  {
  }

  lemma NoPhasesYet(states: seq<State>)
    requires IsRun(states)
    ensures PhasesServed(states[0])
  {
  }

  lemma {:induction false} PhasesRun(states: seq<State>, k: nat)
    requires IsRun(states) && k < |states|
    ensures PhasesServed(states[k])
    decreases k
  {
    hide *;
    if k == 0 {
      NoPhasesYet(states);
    } else {
      PhasesRun(states, k - 1);
      SoundRun(states, k - 1);
      StepOf(states, k);
      OneStep(states[k - 1], states[k], 0, 0);
    }
  }

  lemma {:induction false} StaysSo(states: seq<State>, j: nat, k: nat, h: nat, i: nat)
    requires IsRun(states) && j <= k < |states|
    ensures Accepted(states[j], h) ==> Accepted(states[k], h)
    ensures Refused(states[j], i) ==> Refused(states[k], i)
    ensures IsRequest(states[j], i) ==> IsRequest(states[k], i)
    decreases k
  {
    hide *;
    if j < k {
      StaysSo(states, j, k - 1, h, i);
      SoundRun(states, k - 1);
      PhasesRun(states, k - 1);
      StepOf(states, k);
      OneStep(states[k - 1], states[k], h, i);
    }
  }

  // A request whose id is in use leaves the table as it was, and in every run
  // from there to a state with nothing left to do it has one answer, the
  // refusal, and the holder of the id has one, its own task's.
  lemma RefusalDisturbsNothing(states: seq<State>, j: nat, k: nat, a: Actor)
    requires IsRun(states) && j < k < |states| && Quiescent(states[k])
    requires Enabled(states[j], RouteMessage(a)) && states[j + 1] == RouteStep(states[j], a)
    requires var s := states[j]; var m := s.inbox[Doing(s, a).i].message; m.Request? && m.id in s.reg.inflight
    ensures var s, t := states[j], states[k];
      var i := Doing(s, a).i;
      var h := s.reg.inflight[s.inbox[i].message.id].holder;
      && states[j + 1].reg == s.reg && h != i
      && Closing(i, InUse) in t.closed && Answers(t, i) == 1
      && (exists c :: c in t.closed && c.i == h && IsServed(c.how)) && Answers(t, h) == 1
  {
    var s, t := states[j], states[k];
    var i := Doing(s, a).i;
    var id := s.inbox[i].message.id;
    var h := s.reg.inflight[id].holder;
    SoundRun(states, j);
    SoundRun(states, k);
    assert EntryHeld(s, id) && IsRequest(s, h) && IsRequest(s, i);
    RouteEffect(s, a);
    RouteTable(s, a);
    assert Busy(states[j + 1], a) && Doing(states[j + 1], a) == AtRefuse(i);
    StaysSo(states, j, k, h, i);
    StaysSo(states, j, k, h, h);
    StaysSo(states, j + 1, k, h, i);
    AnsweredOnce(states, k, h);
    AnsweredOnce(states, k, i);
    OtherHolder(s, a, h);
    hide RouteStep, Sound, IsRun;
    assert Accepted(t, h) && !Holds(t, h);
  }

  lemma OtherHolder(s: State, a: Actor, h: nat)
    requires Sound(s) && Enabled(s, RouteMessage(a)) && Holds(s, h)
    ensures h != Doing(s, a).i
  {
    assert Places(s, h) <= 1;
    SerialIn(s.serial, h);
    if Launch(h) in s.strand { ItemIn(s.strand, Launch(h)); }
  }
}
