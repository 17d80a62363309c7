/** What every step of the message loop keeps, and what therefore holds in every reachable state. */
module MessageLoopSafety {
  import opened Basics
  import opened PendingTasks
  import opened MessageLoops

  // ----------------------------------------------------------------------------------------------
  // Reentrancy
  // ----------------------------------------------------------------------------------------------

  /** All runs but the innermost are inside the task that started the next one. */
  ghost predicate Nesting(s: State) {
    forall k :: 0 <= k < |s.frames| - 1 ==> s.frames[k].pc.InTask?
  }

  /** Program points at which the pump takes tasks out of a queue only because the flag allowed it. */
  predicate FlagWasTested(pc: Pc) {
    pc.Reload? || pc.Drain? || pc.Holding?
  }

  /** Outside of tasks the outermost run always finds the flag up; a nested one does where it tested it. */
  ghost predicate FlagUp(s: State) {
    && (s.frames == [] ==> s.nestableAllowed)
    && (s.frames != [] && !s.Top().pc.InTask? && (s.Depth() == 1 || FlagWasTested(s.Top().pc)) ==> s.nestableAllowed)
  }

  /** Tasks start only with the flag up, and non-nestable ones only in the outermost run. */
  ghost predicate StartsAllowed(s: State) {
    forall k :: 0 <= k < |s.started| ==>
      && s.started[k].allowed
      && (s.started[k].task.nestable || s.started[k].depth == 1)
  }

  /** Put-off tasks are non-nestable and are started in the order they were put off. */
  ghost predicate DeferralOrder(s: State) {
    && s.putOff == s.resumed + s.deferred
    && forall k :: 0 <= k < |s.putOff| ==> !s.putOff[k].nestable
  }

  ghost predicate Reentrancy(s: State) {
    Nesting(s) && FlagUp(s) && StartsAllowed(s) && DeferralOrder(s)
  }

  // ----------------------------------------------------------------------------------------------
  // Wake-up
  // ----------------------------------------------------------------------------------------------

  /** From here the pump goes to sleep unless a delegate method still finds something to do. */
  predicate OnTheWayToSleep(pc: Pc) {
    match pc
    case AfterDoWork(did) => !did
    case DoDelayedWork(did) => !did
    case Holding(_, stage, did) => stage.FromDelayed? && !did
    case AfterDelayedWork(did) => !did
    case DoIdleWork => true
    case AfterIdleWork(did) => !did
    case BeforeWait => true
    case Waiting(_) => true
    case _ => false
  }

  ghost predicate WillWake(s: State) {
    s.event || s.signallers != {}
  }

  ghost predicate NoLostWakeUp(s: State) {
    s.frames != [] && OnTheWayToSleep(s.Top().pc) && s.nestableAllowed ==>
      s.work == [] && (s.incoming != [] ==> WillWake(s))
  }

  ghost predicate HoldingStages(s: State) {
    s.frames != [] && s.Top().pc.Holding? ==>
      if s.Top().pc.stage.FromWork? then !s.Top().pc.didWork
      else s.Top().pc.stage.FromDelayed?
  }

  // ----------------------------------------------------------------------------------------------
  // Deadlines
  // ----------------------------------------------------------------------------------------------

  /** Between DoDelayedWork, when it found nothing to run, and the wait. */
  predicate DeadlineWasSet(pc: Pc) {
    match pc
    case Holding(_, stage, _) => stage.FromDelayed?
    case AfterDelayedWork(did) => !did
    case DoIdleWork => true
    case AfterIdleWork(did) => !did
    case BeforeWait => true
    case Waiting(_) => true
    case _ => false
  }

  /** The pump's idea of the next deadline is the delayed queue's. */
  ghost predicate DeadlineKnown(s: State) {
    s.frames != [] ==>
      && (s.delayed != [] && s.nestableAllowed && DeadlineWasSet(s.Top().pc) ==>
            s.delayedWorkTime == MinTime(s.delayed))
      && (s.Top().pc.Waiting? ==> s.Top().pc.until == s.delayedWorkTime)
  }

  ghost predicate DelayedHaveTimes(s: State) {
    forall k :: 0 <= k < |s.delayed| ==> !s.delayed[k].task.Immediate()
  }

  /** recent_time_ is never ahead of the clock, and no delayed task is taken out before its time. */
  ghost predicate NeverEarly(s: State) {
    && s.recentTime <= s.now
    && (s.frames != [] && s.Top().pc.Holding? && s.Top().pc.stage.FromDelayed? ==>
          0 < s.Top().pc.task.runTime <= s.recentTime)
    && (forall k :: 0 <= k < |s.started| ==> s.started[k].task.runTime <= s.now)
    && (forall k :: 0 <= k < |s.putOff| ==> s.putOff[k].runTime <= s.now)
  }

  // ----------------------------------------------------------------------------------------------
  // Every step keeps all of this
  // ----------------------------------------------------------------------------------------------

  /** The loop thread finishes a post of its own before it moves on. */
  ghost predicate SignalsFirst(s: State) {
    LOOP_THREAD in s.signallers ==> s.frames == [] || s.Top().pc.InTask?
  }

  ghost predicate Safe(s: State) {
    && Reentrancy(s) && SignalsFirst(s)
    && HoldingStages(s) && NoLostWakeUp(s)
    && DelayedHaveTimes(s) && DeadlineKnown(s)
    && NeverEarly(s)
  }

  lemma OthersKeepSafe(s: State, step: Step)
    requires Safe(s) && Enabled(s, step) && (step.Tick? || step.Post? || step.Signal?)
    ensures Safe(Do(s, step))
  {
  }

  lemma ClientKeepsSafe(s: State, step: Step)
    requires Safe(s) && Enabled(s, step) && !step.Tick? && !step.Post? && !step.Signal? && !step.Pump?
    ensures Safe(Do(s, step))
  {
  }

  ghost predicate Pumps(s: State, top: nat) {
    Safe(s) && PumpEnabled(s, top)
  }

  lemma DoWorkKeepsSafe(s: State, top: nat)
    requires Pumps(s, top) && (s.Top().pc.DoWork? || s.Top().pc.Drain?)
    ensures Safe(DoPump(s, top))
  {
  }

  lemma ReloadKeepsSafe(s: State, top: nat)
    requires Pumps(s, top) && s.Top().pc.Reload?
    ensures Safe(DoPump(s, top))
  {
    if s.work == [] && s.incoming == [] {
      GoOnToKeepsSafe(s, AfterDoWork(false));
    } else if s.work == [] {
      SwapKeepsSafe(s);
    } else {
      GoOnToKeepsSafe(s, Drain);
    }
  }

  /** Nothing but the program point changes. */
  lemma GoOnToKeepsSafe(s: State, pc: Pc)
    requires Safe(s) && s.frames != [] && !s.Top().pc.InTask?
    requires || (pc.Drain? && s.nestableAllowed)
             || (pc == AfterDoWork(false) && s.nestableAllowed && s.work == [] && s.incoming == [])
    ensures Safe(s.At(pc))
  {
  }

  lemma SwapKeepsSafe(s: State)
    requires Safe(s) && s.frames != [] && !s.Top().pc.InTask? && s.nestableAllowed
    ensures Safe(s.(work := s.incoming, incoming := []).At(Drain))
  {
  }

  /** A delayed task is moved to the delayed queue. */
  lemma AddToDelayedKeepsSafe(s: State, top: nat)
    requires Pumps(s, top) && s.Top().pc.Holding? && s.Top().pc.stage.FromWork? && !s.Top().pc.task.Immediate()
    ensures Safe(DoPump(s, top))
  {
  }

  lemma RunTaskKeepsSafe(s: State, task: Task, stage: Stage)
    requires Safe(s) && s.frames != [] && !s.Top().pc.InTask? && s.nestableAllowed
    requires task.runTime <= s.now && (task.nestable || s.Depth() == 1)
    ensures Safe(RunTask(s, task, stage))
  {
  }

  lemma DeferKeepsSafe(s: State, top: nat)
    requires Pumps(s, top) && s.Top().pc.Holding? && !s.Top().pc.task.nestable && s.Depth() != 1
    requires s.Top().pc.stage.FromWork? ==> s.Top().pc.task.Immediate()
    ensures Safe(DoPump(s, top))
  {
  }

  lemma HoldingKeepsSafe(s: State, top: nat)
    requires Pumps(s, top) && s.Top().pc.Holding?
    ensures Safe(DoPump(s, top))
  {
    var pc := s.Top().pc;
    if pc.stage.FromWork? && !pc.task.Immediate() {
      AddToDelayedKeepsSafe(s, top);
    } else if pc.task.nestable || s.Depth() == 1 {
      RunTaskKeepsSafe(s, pc.task, pc.stage);
    } else {
      DeferKeepsSafe(s, top);
    }
  }

  lemma DoDelayedWorkKeepsSafe(s: State, top: nat)
    requires Pumps(s, top) && s.Top().pc.DoDelayedWork?
    ensures Safe(DoPump(s, top))
  {
    var didWork := s.Top().pc.didWork;
    if !s.nestableAllowed || s.delayed == [] {
      NothingDelayedKeepsSafe(s, didWork);
    } else {
      var next := s.delayed[top].task;
      var recent := if next.runTime > s.recentTime then s.now else s.recentTime;
      if next.runTime > recent { NotDueKeepsSafe(s, didWork, recent); } else { PopKeepsSafe(s, didWork, top, recent); }
    }
  }

  lemma NothingDelayedKeepsSafe(s: State, didWork: bool)
    requires Safe(s) && s.frames != [] && s.Top().pc == Pc.DoDelayedWork(didWork)
    requires !s.nestableAllowed || s.delayed == []
    ensures Safe(s.(recentTime := 0, delayedWorkTime := 0).At(AfterDelayedWork(didWork)))
  {
  }

  lemma NotDueKeepsSafe(s: State, didWork: bool, recent: nat)
    requires Safe(s) && s.frames != [] && s.Top().pc == Pc.DoDelayedWork(didWork)
    requires s.delayed != [] && recent <= s.now
    ensures Safe(s.(recentTime := recent, delayedWorkTime := MinTime(s.delayed)).At(AfterDelayedWork(didWork)))
  {
  }

  lemma PopKeepsSafe(s: State, didWork: bool, top: nat, recent: nat)
    requires Safe(s) && s.frames != [] && s.Top().pc == Pc.DoDelayedWork(didWork) && s.nestableAllowed
    requires top < |s.delayed| && s.delayed[top].task.runTime <= recent <= s.now
    ensures var rest := WithoutAt(s.delayed, top);
            Safe(s.(recentTime := recent, delayed := rest,
                    delayedWorkTime := if rest != [] then MinTime(rest) else s.delayedWorkTime)
                 .At(Holding(s.delayed[top].task, FromDelayed, didWork)))
  {
  }

  lemma DoIdleWorkKeepsSafe(s: State, top: nat)
    requires Pumps(s, top) && s.Top().pc.DoIdleWork?
    ensures Safe(DoPump(s, top))
  {
    if s.Depth() == 1 && s.deferred != [] {
      assert s.putOff[|s.resumed|] == s.deferred[0];
      var s' := s.(deferred := s.deferred[1..], resumed := s.resumed + [s.deferred[0]]);
      RunTaskKeepsSafe(s', s.deferred[0], FromIdle);
    }
  }

  lemma LeaveRunKeepsSafe(s: State, onward: Pc)
    requires Safe(s) && s.frames != [] && !s.Top().pc.InTask? && !s.keepRunning
    ensures Safe(CheckKeepRunning(s, onward))
  {
  }

  lemma GoOnKeepsSafe(s: State, top: nat)
    requires Pumps(s, top) && s.keepRunning
    requires s.Top().pc.AfterDoWork? || s.Top().pc.AfterDelayedWork? || s.Top().pc.AfterIdleWork?
    ensures Safe(DoPump(s, top))
  {
  }

  lemma GoToSleepKeepsSafe(s: State, until: nat)
    requires Safe(s) && s.frames != [] && s.Top().pc.BeforeWait? && until == s.delayedWorkTime
    ensures Safe(s.At(Waiting(until)))
  {
  }

  lemma BeforeWaitKeepsSafe(s: State, top: nat)
    requires Pumps(s, top) && s.Top().pc.BeforeWait?
    ensures Safe(DoPump(s, top))
  {
    if s.delayedWorkTime == 0 || s.delayedWorkTime > s.now {
      GoToSleepKeepsSafe(s, s.delayedWorkTime);
    }
  }

  lemma WakeUpKeepsSafe(s: State, top: nat)
    requires Pumps(s, top) && s.Top().pc.Waiting?
    ensures Safe(DoPump(s, top))
  {
  }

  lemma PumpKeepsSafe(s: State, top: nat)
    requires Pumps(s, top)
    ensures Safe(DoPump(s, top))
  {
    match s.Top().pc
    case DoWork | Drain => DoWorkKeepsSafe(s, top);
    case Reload => ReloadKeepsSafe(s, top);
    case Holding(_, _, _) => HoldingKeepsSafe(s, top);
    case DoDelayedWork(_) => DoDelayedWorkKeepsSafe(s, top);
    case DoIdleWork => DoIdleWorkKeepsSafe(s, top);
    case BeforeWait => BeforeWaitKeepsSafe(s, top);
    case Waiting(_) => WakeUpKeepsSafe(s, top);
    case _ =>
      if s.keepRunning { GoOnKeepsSafe(s, top); } else { LeaveRunKeepsSafe(s, DoWork); }
  }

  lemma StepKeepsSafe(s: State, step: Step)
    requires Safe(s) && Enabled(s, step)
    ensures Safe(Do(s, step))
  {
    match step
    case Pump(top) => PumpKeepsSafe(s, top);
    case Tick(_) | Post(_, _, _, _) | Signal(_) => OthersKeepSafe(s, step);
    case _ => ClientKeepsSafe(s, step);
  }

  lemma {:induction false} RunKeepsSafe(s: State, steps: seq<Step>)
    requires Safe(s) && Possible(s, steps)
    ensures Safe(After(s, steps))
    decreases |steps|
  {
    if steps != [] {
      StepKeepsSafe(s, steps[0]);
      RunKeepsSafe(Do(s, steps[0]), steps[1..]);
    }
  }
}
