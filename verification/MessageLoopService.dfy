/** What a run is for: every task gets its turn, and a run that is asked to end does end. */
module MessageLoopService {
  import opened Basics
  import opened PendingTasks
  import opened MessageLoops
  import opened MessageLoopSafety
  import opened MessageLoopIdle
  import opened MessageLoopHistory
  import opened MessageLoopQuit
  import opened MessageLoopProgress

  // ----------------------------------------------------------------------------------------------
  // The invariants together
  // ----------------------------------------------------------------------------------------------

  ghost predicate Sound(s: State) {
    Safe(s) && IdleDone(s) && DrainsSome(s) && History(PlacesOf(s))
  }

  lemma OthersKeepDrainsSome(s: State, step: Step)
    requires DrainsSome(s) && Enabled(s, step) && !step.Pump?
    ensures DrainsSome(Do(s, step))
  {
  }

  lemma StepKeepsSound(s: State, step: Step)
    requires Sound(s) && Enabled(s, step)
    ensures Sound(Do(s, step))
  {
    StepKeepsSafe(s, step);
    StepKeepsIdleDone(s, step);
    SafeTasksFit(s);
    StepMoves(s, step);
    MoveKeepsHistory(PlacesOf(s), MoveOf(s, step));
    match step
    case Pump(top) => PumpMovesOn(s, top);
    case _ => OthersKeepDrainsSome(s, step);
  }

  lemma {:induction false} RunKeepsSound(s: State, steps: seq<Step>)
    requires Sound(s) && Possible(s, steps)
    ensures Sound(After(s, steps))
    decreases |steps|
  {
    if steps != [] {
      StepKeepsSound(s, steps[0]);
      RunKeepsSound(Do(s, steps[0]), steps[1..]);
    }
  }

  /** How many tasks have not been started. */
  ghost function Unstarted(s: State): int {
    |s.posted| - |s.started|
  }

  lemma UnstartedAreSomewhere(s: State)
    requires History(PlacesOf(s))
    ensures Unstarted(s) ==
              |s.incoming| + |s.work| + |InHand(s, true)| + |s.delayed| + |InHand(s, false)| + |s.deferred|
  {
    var p := PlacesOf(s);
    assert |multiset(p.posted)| ==
           |multiset(p.incoming)| + |multiset(p.work)| + |multiset(p.fromWork)| +
           |multiset(p.delayed)| + |multiset(p.fromDelayed)| + |multiset(p.deferred)| + |multiset(p.started)|;
  }

  lemma {:induction false} JoinSteps(s: State, first: seq<Step>, second: seq<Step>)
    requires Possible(s, first) && Possible(After(s, first), second)
    ensures Possible(s, first + second) && After(s, first + second) == After(After(s, first), second)
    decreases |first|
  {
    if first == [] {
      assert first + second == second;
    } else {
      assert (first + second)[1..] == first[1..] + second;
      JoinSteps(Do(s, first[0]), first[1..], second);
    }
  }

  lemma OneStep(s: State, step: Step)
    requires Enabled(s, step)
    ensures Possible(s, [step]) && After(s, [step]) == Do(s, step)
  {
    assert [step][1..] == [];
    assert Possible(Do(s, step), []);
    assert After(Do(s, step), []) == Do(s, step);
  }

  // ----------------------------------------------------------------------------------------------
  // Tasks that only run and return
  // ----------------------------------------------------------------------------------------------

  /** No client code does anything but return, and nobody posts: signals arrive and time passes. */
  ghost predicate IsUndisturbed(steps: seq<Step>) {
    forall k :: 0 <= k < |steps| ==> steps[k].Pump? || steps[k] == FinishTask || steps[k].Signal? || steps[k].Tick?
  }

  lemma {:induction false} UndisturbedIsNotAsked(s: State, steps: seq<Step>, place: nat)
    requires Possible(s, steps) && IsUndisturbed(steps)
    ensures IsNotAsked(s, steps, place)
    decreases |steps|
  {
    if steps != [] { UndisturbedIsNotAsked(Do(s, steps[0]), steps[1..], place); }
  }

  lemma {:induction false} NothingIsPosted(s: State, steps: seq<Step>)
    requires Sound(s) && Possible(s, steps) && IsUndisturbed(steps)
    ensures After(s, steps).posted == s.posted
    decreases |steps|
  {
    if steps != [] {
      UndisturbedPosts(s, steps[0]);
      StepKeepsSound(s, steps[0]);
      NothingIsPosted(Do(s, steps[0]), steps[1..]);
    }
  }

  lemma UndisturbedPosts(s: State, step: Step)
    requires Safe(s) && DrainsSome(s) && Enabled(s, step)
    requires step.Pump? || step == FinishTask || step.Signal? || step.Tick?
    ensures Do(s, step).posted == s.posted
  {
    if step.Pump? { PumpMovesOn(s, step.top); }
  }

  lemma TaskReturns(s: State)
    requires s.frames != [] && s.Top().pc.InTask? && LOOP_THREAD !in s.signallers
    ensures var t := Do(s, FinishTask);
            && Enabled(s, FinishTask) && InPump(t) && SameQuits(s, t) && |t.frames| == |s.frames|
            && SameWorld(s, t) && t.started == s.started
  {
  }

  lemma SettlesSoundly(s: State) returns (steps: seq<Step>, t: State)
    requires Sound(s) && InPump(s)
    ensures Possible(s, steps) && After(s, steps) == t && IsUndisturbed(steps) && Sound(t) && Settled(s, t)
  {
    steps, t := Settles(s);
    RunKeepsSound(s, steps);
  }

  /** What the pump comes to from here, perhaps after the return of a task. */
  ghost predicate ComesTo(s: State, t: State) {
    && SameWorld(s, t) && SameQuits(s, t)
    && (Arrives(s, t) || (IsBlocked(t) && |t.frames| == |s.frames| && t.started == s.started))
  }

  lemma ComesToAfterReturn(s: State, from: State, t: State)
    requires SameQuits(s, from) && |from.frames| == |s.frames| && SameWorld(s, from) && from.started == s.started
    requires Settled(from, t)
    ensures ComesTo(s, t)
  {
  }

  /** From the inside of a task: it returns, and the pump goes on to the next place where it settles. */
  lemma SettlesFromTask(s: State) returns (steps: seq<Step>, t: State)
    requires Sound(s) && s.frames != [] && LOOP_THREAD !in s.signallers
    ensures Possible(s, steps) && After(s, steps) == t && IsUndisturbed(steps) && Sound(t) && ComesTo(s, t)
  {
    if s.Top().pc.InTask? {
      steps, t := SettlesAfterReturn(s);
    } else {
      steps, t := SettlesSoundly(s);
    }
  }

  lemma SettlesAfterReturn(s: State) returns (steps: seq<Step>, t: State)
    requires Sound(s) && s.frames != [] && LOOP_THREAD !in s.signallers && s.Top().pc.InTask?
    ensures Possible(s, steps) && After(s, steps) == t && IsUndisturbed(steps) && Sound(t) && ComesTo(s, t)
  {
    TaskReturns(s);
    var from, more := Do(s, FinishTask), [];
    StepKeepsSound(s, FinishTask);
    more, t := SettlesSoundly(from);
    StepFirst(s, FinishTask, more);
    ComesToAfterReturn(s, from, t);
    steps := [FinishTask] + more;
  }

  lemma StepFirst(s: State, step: Step, more: seq<Step>)
    requires Enabled(s, step) && Possible(Do(s, step), more)
    ensures Possible(s, [step] + more) && After(s, [step] + more) == After(Do(s, step), more)
    ensures IsUndisturbed([step]) && IsUndisturbed(more) ==> IsUndisturbed([step] + more)
  {
    assert ([step] + more)[1..] == more && ([step] + more)[0] == step && [step][0] == step;
    assert forall k :: 1 <= k < |more| + 1 ==> ([step] + more)[k] == more[k - 1];
  }

  lemma QuittingIsNotBlocked(s: State)
    requires Sound(s) && s.frames != [] && s.Top().quitReceived
    ensures !IsBlocked(s)
  {
    QuittingIsAwake(s, |s.frames| - 1);
  }

  lemma SomeAreUnstarted(s: State)
    requires Sound(s)
    ensures Unstarted(s) >= 0
  {
    UnstartedAreSomewhere(s);
  }

  // ----------------------------------------------------------------------------------------------
  // A run that is to end
  // ----------------------------------------------------------------------------------------------

  ghost predicate IsQuitting(s: State) {
    Sound(s) && s.frames != [] && LOOP_THREAD !in s.signallers && s.Top().quitReceived
  }

  /** If its tasks do nothing but return, a run that is to quit comes to its end. */
  lemma {:induction false} QuittingRunEnds(s: State) returns (steps: seq<Step>, t: State)
    requires IsQuitting(s)
    ensures Possible(s, steps) && After(s, steps) == t && IsUndisturbed(steps)
    ensures |t.frames| == |s.frames| - 1 && t.keepRunning
    decreases Unstarted(s)
  {
    steps, t := QuittingRunMovesOn(s);
    if |t.frames| == |s.frames| {
      var more;
      var u := t;
      more, t := QuittingRunEnds(u);
      JoinSteps(s, steps, more);
      steps := steps + more;
    }
  }

  /** It ends or starts another task, of which there are ever fewer. */
  lemma QuittingRunMovesOn(s: State) returns (steps: seq<Step>, t: State)
    requires IsQuitting(s)
    ensures Possible(s, steps) && After(s, steps) == t && IsUndisturbed(steps)
    ensures || (|t.frames| == |s.frames| - 1 && t.keepRunning)
            || (|t.frames| == |s.frames| && IsQuitting(t) && 0 <= Unstarted(t) < Unstarted(s))
  {
    steps, t := SettlesFromTask(s);
    SomeAreUnstarted(t);
    if |t.frames| == |s.frames| {
      assert t.frames[|s.frames| - 1].quitReceived;
      QuittingIsNotBlocked(t);
    }
  }

  // ----------------------------------------------------------------------------------------------
  // Every task gets its turn
  // ----------------------------------------------------------------------------------------------

  /** Signals that are on their way arrive. */
  lemma {:induction false} SignalsArrive(s: State) returns (steps: seq<Step>, t: State)
    ensures Possible(s, steps) && After(s, steps) == t && IsUndisturbed(steps)
    ensures t == s.(event := s.event || s.signallers != {}, signallers := {})
    decreases |s.signallers|
  {
    if s.signallers != {} {
      var thread := SomeMember(s.signallers);
      OneStep(s, Signal(thread));
      var more;
      more, t := SignalsArrive(Do(s, Signal(thread)));
      JoinSteps(s, [Signal(thread)], more);
      steps := [Signal(thread)] + more;
    } else {
      steps, t := [], s;
    }
  }

  /** In the outermost run, all that can be left when the pump is blocked is for later. */
  lemma BlockedHasDelayed(s: State)
    requires Sound(s) && IsBlocked(s) && s.Depth() == 1 && s.signallers == {}
    ensures Unstarted(s) == |s.delayed|
    ensures s.delayed != [] ==> MinTime(s.delayed) > s.now
  {
    UnstartedAreSomewhere(s);
    if s.delayed != [] {
      MinTimeIsMinimum(s.delayed);
      BlockedIsNotDue(s);
    }
  }

  /** When the time has come, a blocked pump starts a task. */
  lemma BlockedUntilDue(s: State) returns (steps: seq<Step>, t: State)
    requires Sound(s) && IsBlocked(s) && s.Depth() == 1 && s.signallers == {} && s.delayed != []
    ensures Possible(s, steps) && After(s, steps) == t && IsUndisturbed(steps)
    ensures Arrives(s, t)
  {
    BlockedHasDelayed(s);
    var tick := Tick(MinTime(s.delayed) - s.now);
    var later := Do(s, tick);
    OneStep(s, tick);
    StepKeepsSound(s, tick);
    MinTimeIsMinimum(later.delayed);
    var more;
    more, t := Settles(later);
    JoinSteps(s, [tick], more);
    steps := [tick] + more;
  }

  /** The outermost run comes to one more start, as long as there is a task that has not been started. */
  lemma StartsOneMore(s: State) returns (steps: seq<Step>, t: State)
    requires Sound(s) && s.Depth() == 1 && IsToGoOn(s, 0) && s.signallers == {} && Unstarted(s) > 0
    ensures Possible(s, steps) && After(s, steps) == t && IsUndisturbed(steps)
    ensures t.Depth() == 1 && |t.started| == |s.started| + 1
  {
    steps, t := SettlesFromTask(s);
    GoesOnUndisturbed(s, steps);
    if IsBlocked(t) {
      BlockedHasDelayed(t);
      var more;
      var u := t;
      more, t := BlockedUntilDue(u);
      JoinSteps(s, steps, more);
      steps := steps + more;
      GoesOnUndisturbed(s, steps);
    }
  }

  lemma GoesOnUndisturbed(s: State, steps: seq<Step>)
    requires Sound(s) && Possible(s, steps) && IsUndisturbed(steps) && IsToGoOn(s, 0)
    ensures IsToGoOn(After(s, steps), 0) && After(s, steps).posted == s.posted
  {
    UndisturbedIsNotAsked(s, steps, 0);
    UnaskedGoesOn(s, steps, 0);
    NothingIsPosted(s, steps);
  }

  /** If its tasks do nothing but return, the outermost run starts all that have been posted. */
  lemma {:induction false} AllGetStarted(s: State) returns (steps: seq<Step>, t: State)
    requires Sound(s) && s.Depth() == 1 && IsToGoOn(s, 0)
    ensures Possible(s, steps) && After(s, steps) == t && IsUndisturbed(steps)
    ensures t.posted == s.posted && Unstarted(t) == 0
    decreases Unstarted(s)
  {
    UnstartedAreSomewhere(s);
    if Unstarted(s) == 0 {
      steps, t := [], s;
    } else {
      var one, more, u;
      steps, t := SignalsArrive(s);
      RunKeepsSound(s, steps);
      one, u := StartsOneMore(t);
      RunKeepsSound(t, one);
      GoesOnUndisturbed(t, one);
      more, t := AllGetStarted(u);
      JoinSteps(s, steps, one);
      JoinSteps(s, steps + one, more);
      steps := steps + one + more;
    }
  }
}
