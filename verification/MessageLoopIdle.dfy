/** What a run has seen to before it may rest: the deferred tasks, and the wish to quit. */
module MessageLoopIdle {
  import opened PendingTasks
  import opened MessageLoops
  import opened MessageLoopSafety

  /** DoIdleWork has been called, and has found nothing to run. */
  predicate IdleWasTried(pc: Pc) {
    pc == AfterIdleWork(false) || Rests(pc)
  }

  predicate Rests(pc: Pc) {
    pc.BeforeWait? || pc.Waiting?
  }

  /** Then the outermost run has no deferred task left, and a run that is to quit is on its way out. */
  ghost predicate IdleDone(s: State) {
    s.frames != [] && IdleWasTried(s.Top().pc) ==>
      && (s.Depth() == 1 ==> s.deferred == [])
      && (s.Top().quitReceived ==> !s.keepRunning && !Rests(s.Top().pc))
  }

  /** The top run is somewhere else, or further up the stack. */
  ghost predicate IsElsewhere(s: State) {
    s.frames != [] ==> !IdleWasTried(s.Top().pc)
  }

  lemma WorkGoesElsewhere(s: State, top: nat)
    requires PumpEnabled(s, top) && (s.Top().pc.DoWork? || s.Top().pc.Reload? || s.Top().pc.Drain?)
    ensures IsElsewhere(DoPump(s, top))
  {
  }

  lemma DispatchGoesElsewhere(s: State, task: Task, stage: Stage, didWork: bool)
    requires s.frames != []
    ensures IsElsewhere(DeferOrRunPendingTask(s, task, stage, didWork))
  {
  }

  lemma AddGoesElsewhere(s: State, task: Task, top: nat)
    requires s.frames != [] && !task.Immediate() && top <= |s.delayed|
    ensures IsElsewhere(DispatchWork(s, task, top))
  {
  }

  lemma HoldingGoesElsewhere(s: State, top: nat)
    requires PumpEnabled(s, top) && s.Top().pc.Holding?
    ensures IsElsewhere(DoPump(s, top))
  {
    var pc := s.Top().pc;
    if pc.stage.FromWork? && !pc.task.Immediate() {
      AddGoesElsewhere(s, pc.task, top);
    } else {
      DispatchGoesElsewhere(s, pc.task, pc.stage, if pc.stage.FromWork? then false else pc.didWork);
    }
  }

  lemma DelayedGoesElsewhere(s: State, top: nat)
    requires PumpEnabled(s, top) && s.Top().pc.DoDelayedWork?
    ensures IsElsewhere(DoPump(s, top))
  {
  }

  lemma IdleMakesIdleDone(s: State, top: nat)
    requires PumpEnabled(s, top) && s.Top().pc.DoIdleWork?
    ensures IdleDone(DoPump(s, top))
  {
  }

  lemma RestKeepsIdleDone(s: State, top: nat)
    requires PumpEnabled(s, top) && IdleDone(s) && Rests(s.Top().pc)
    ensures IdleDone(DoPump(s, top))
  {
  }

  lemma CheckKeepsIdleDone(s: State, top: nat)
    requires PumpEnabled(s, top) && Nesting(s) && IdleDone(s)
    requires s.Top().pc.AfterDoWork? || s.Top().pc.AfterDelayedWork? || s.Top().pc.AfterIdleWork?
    ensures IdleDone(DoPump(s, top))
  {
    if !s.keepRunning && s.Depth() > 1 { assert s.frames[|s.frames| - 2].pc.InTask?; }
  }

  lemma PumpKeepsIdleDone(s: State, top: nat)
    requires Nesting(s) && IdleDone(s) && PumpEnabled(s, top)
    ensures IdleDone(DoPump(s, top))
  {
    match s.Top().pc
    case DoWork | Reload | Drain => WorkGoesElsewhere(s, top);
    case Holding(_, _, _) => HoldingGoesElsewhere(s, top);
    case DoDelayedWork(_) => DelayedGoesElsewhere(s, top);
    case DoIdleWork => IdleMakesIdleDone(s, top);
    case BeforeWait | Waiting(_) => RestKeepsIdleDone(s, top);
    case _ => CheckKeepsIdleDone(s, top);
  }

  lemma OthersKeepIdleDone(s: State, step: Step)
    requires IdleDone(s) && Enabled(s, step) && !step.Pump?
    ensures IdleDone(Do(s, step))
  {
  }

  lemma StepKeepsIdleDone(s: State, step: Step)
    requires Safe(s) && IdleDone(s) && Enabled(s, step)
    ensures IdleDone(Do(s, step))
  {
    match step
    case Pump(top) => PumpKeepsIdleDone(s, top);
    case _ => OthersKeepIdleDone(s, step);
  }

  lemma {:induction false} RunKeepsIdleDone(s: State, steps: seq<Step>)
    requires Safe(s) && IdleDone(s) && Possible(s, steps)
    ensures IdleDone(After(s, steps))
    decreases |steps|
  {
    if steps != [] {
      StepKeepsSafe(s, steps[0]);
      StepKeepsIdleDone(s, steps[0]);
      RunKeepsIdleDone(Do(s, steps[0]), steps[1..]);
    }
  }

  /** The run at this place of the stack goes on through all of the steps. */
  ghost predicate GoesOn(s: State, steps: seq<Step>, place: nat)
    requires Possible(s, steps)
    decreases |steps|
  {
    place < |s.frames| && (steps == [] || GoesOn(Do(s, steps[0]), steps[1..], place))
  }

  /** No run has lost its wish to quit. */
  ghost predicate KeepsQuits(s: State, s': State) {
    forall k :: 0 <= k < |s.frames| && k < |s'.frames| && s.frames[k].quitReceived ==> s'.frames[k].quitReceived
  }

  lemma OthersKeepQuits(s: State, step: Step)
    requires Enabled(s, step) && !step.Pump?
    ensures KeepsQuits(s, Do(s, step))
  {
  }

  /** The pump itself changes no run's wish. */
  ghost predicate SameQuits(s: State, s': State) {
    && |s'.frames| <= |s.frames|
    && forall k :: 0 <= k < |s'.frames| ==> s'.frames[k].quitReceived == s.frames[k].quitReceived
  }

  /** Going to another program point changes no wish. */
  lemma AtKeepsQuits(s: State, t: State, pc: Pc)
    requires s.frames != [] && t.frames == s.frames
    ensures SameQuits(s, t.At(pc))
  {
  }

  lemma DispatchKeepsQuits(s: State, task: Task, stage: Stage, didWork: bool)
    requires s.frames != []
    ensures SameQuits(s, DeferOrRunPendingTask(s, task, stage, didWork))
  {
    var s' := DeferOrRunPendingTask(s, task, stage, didWork);
    AtKeepsQuits(s, s'.(frames := s.frames), s'.Top().pc);
  }

  lemma AddKeepsQuits(s: State, task: Task, top: nat)
    requires s.frames != [] && !task.Immediate() && top <= |s.delayed|
    ensures SameQuits(s, DispatchWork(s, task, top))
  {
    var s' := DispatchWork(s, task, top);
    AtKeepsQuits(s, s'.(frames := s.frames), s'.Top().pc);
  }

  lemma HoldingKeepsQuits(s: State, top: nat)
    requires PumpEnabled(s, top) && s.Top().pc.Holding?
    ensures SameQuits(s, DoPump(s, top))
  {
    var pc := s.Top().pc;
    if pc.stage.FromWork? && !pc.task.Immediate() {
      AddKeepsQuits(s, pc.task, top);
    } else {
      DispatchKeepsQuits(s, pc.task, pc.stage, if pc.stage.FromWork? then false else pc.didWork);
    }
  }

  lemma DelayedKeepsQuits(s: State, didWork: bool, top: nat)
    requires s.frames != [] && (s.nestableAllowed && s.delayed != [] ==> top < |s.delayed|)
    ensures SameQuits(s, DoDoDelayedWork(s, didWork, top))
  {
  }

  lemma IdleKeepsQuits(s: State)
    requires s.frames != []
    ensures SameQuits(s, DoDoIdleWork(s))
  {
    var s' := DoDoIdleWork(s);
    AtKeepsQuits(s, s'.(frames := s.frames), s'.Top().pc);
  }

  lemma RestKeepsQuits(s: State, top: nat)
    requires PumpEnabled(s, top) && (Rests(s.Top().pc) || s.Top().pc.DoWork?)
    ensures SameQuits(s, DoPump(s, top))
  {
  }

  lemma WorkKeepsQuits(s: State, top: nat)
    requires PumpEnabled(s, top) && (s.Top().pc.Reload? || s.Top().pc.Drain?)
    ensures SameQuits(s, DoPump(s, top))
  {
  }

  lemma CheckKeepsQuits(s: State, top: nat)
    requires PumpEnabled(s, top)
    requires s.Top().pc.AfterDoWork? || s.Top().pc.AfterDelayedWork? || s.Top().pc.AfterIdleWork?
    ensures SameQuits(s, DoPump(s, top))
  {
  }

  lemma PumpKeepsQuits(s: State, top: nat)
    requires PumpEnabled(s, top)
    ensures SameQuits(s, DoPump(s, top))
  {
    match s.Top().pc
    case Holding(_, _, _) => HoldingKeepsQuits(s, top);
    case DoDelayedWork(didWork) => DelayedKeepsQuits(s, didWork, top);
    case Reload | Drain => WorkKeepsQuits(s, top);
    case DoIdleWork => IdleKeepsQuits(s);
    case DoWork | BeforeWait | Waiting(_) => RestKeepsQuits(s, top);
    case _ => CheckKeepsQuits(s, top);
  }

  lemma StepKeepsQuits(s: State, step: Step)
    requires Enabled(s, step)
    ensures KeepsQuits(s, Do(s, step))
  {
    match step
    case Pump(top) => PumpKeepsQuits(s, top);
    case _ => OthersKeepQuits(s, step);
  }

  /** Nothing takes back that a run is to quit. */
  lemma {:induction false} QuitStays(s: State, steps: seq<Step>, place: nat)
    requires Possible(s, steps) && GoesOn(s, steps, place) && s.frames[place].quitReceived
    ensures place < |After(s, steps).frames| && After(s, steps).frames[place].quitReceived
    decreases |steps|
  {
    if steps != [] {
      StepKeepsQuits(s, steps[0]);
      QuitStays(Do(s, steps[0]), steps[1..], place);
    }
  }

  lemma QuittingIsAwake(s: State, place: nat)
    requires Nesting(s) && IdleDone(s) && place < |s.frames| && s.frames[place].quitReceived
    ensures !Rests(s.frames[place].pc)
  {
    assert place < |s.frames| - 1 ==> s.frames[place].pc.InTask?;
  }
}
