/** What the pump is told: one signal for each batch of posts, and the earliest delayed task. */
module MessageLoopScheduling {
  import opened PendingTasks
  import opened MessageLoops

  // ----------------------------------------------------------------------------------------------
  // One signal for each batch
  // ----------------------------------------------------------------------------------------------

  /** The signals that have been given. */
  function Signals(steps: seq<Step>): nat {
    if steps == [] then 0 else (if steps[0].Signal? then 1 else 0) + Signals(steps[1..])
  }

  /** How often the incoming queue has been taken over. */
  ghost function Batches(s: State, steps: seq<Step>): nat
    requires Possible(s, steps)
    decreases |steps|
  {
    if steps == [] then 0
    else (if s.incoming != [] && Do(s, steps[0]).incoming == [] then 1 else 0) + Batches(Do(s, steps[0]), steps[1..])
  }

  function Waits(s: State): nat {
    if s.incoming == [] then 0 else 1
  }

  /** The incoming queue and the signals on their way are as they were. */
  ghost predicate KeepsIncoming(s: State, t: State) {
    t.signallers == s.signallers && t.incoming == s.incoming
  }

  lemma HoldingKeepsIncoming(s: State, top: nat)
    requires PumpEnabled(s, top) && s.Top().pc.Holding?
    ensures KeepsIncoming(s, DoPump(s, top))
  {
  }

  lemma OthersKeepIncoming(s: State, top: nat)
    requires PumpEnabled(s, top)
    requires s.Top().pc.DoDelayedWork? || s.Top().pc.DoIdleWork? || s.Top().pc.Drain? || s.Top().pc.DoWork?
    ensures KeepsIncoming(s, DoPump(s, top))
  {
  }

  lemma ChecksKeepIncoming(s: State, top: nat)
    requires PumpEnabled(s, top) && !s.Top().pc.Holding? && !s.Top().pc.Reload?
    requires !s.Top().pc.DoDelayedWork? && !s.Top().pc.DoIdleWork? && !s.Top().pc.Drain? && !s.Top().pc.DoWork?
    ensures KeepsIncoming(s, DoPump(s, top))
  {
  }

  lemma PumpSignals(s: State, top: nat)
    requires PumpEnabled(s, top)
    ensures DoPump(s, top).signallers == s.signallers
    ensures DoPump(s, top).incoming == s.incoming || DoPump(s, top).incoming == []
  {
    match s.Top().pc
    case Reload =>
    case Holding(_, _, _) => HoldingKeepsIncoming(s, top);
    case DoDelayedWork(_) | DoIdleWork | Drain | DoWork => OthersKeepIncoming(s, top);
    case _ => ChecksKeepIncoming(s, top);
  }

  lemma StepSignals(s: State, step: Step)
    requires Enabled(s, step)
    ensures var t := Do(s, step);
            |t.signallers| + (if step.Signal? then 1 else 0) - |s.signallers| ==
              Waits(t) - Waits(s) + if s.incoming != [] && t.incoming == [] then 1 else 0
  {
    if step.Pump? { PumpSignals(s, step.top); }
  }

  lemma {:induction false} RunSignals(s: State, steps: seq<Step>)
    requires Possible(s, steps)
    ensures Signals(steps) + |After(s, steps).signallers| - |s.signallers| ==
              Batches(s, steps) + Waits(After(s, steps)) - Waits(s)
    decreases |steps|
  {
    if steps != [] {
      StepSignals(s, steps[0]);
      RunSignals(Do(s, steps[0]), steps[1..]);
    }
  }

  /**
    The pump is signalled by posts exactly once for each batch that it takes over, plus once for what is
    waiting now: a post to a queue that is not empty gives no signal.
   */
  lemma OneSignalForEachBatch(steps: seq<Step>)
    requires Possible(INIT, steps)
    ensures var s := After(INIT, steps);
            Signals(steps) + |s.signallers| == Batches(INIT, steps) + if s.incoming == [] then 0 else 1
  {
    RunSignals(INIT, steps);
  }

  // ----------------------------------------------------------------------------------------------
  // The deadline, when a task is added to the delayed queue
  // ----------------------------------------------------------------------------------------------

  lemma MinTimeAppended(d: seq<DelayedTask>, x: DelayedTask)
    requires d != []
    ensures MinTime(d + [x]) == if x.task.runTime < MinTime(d) then x.task.runTime else MinTime(d)
  {
    var both := d + [x];
    MinTimeIsMinimum(d);
    MinTimeIsMinimum(both);
    assert both[|d|] == x && forall k :: 0 <= k < |d| ==> both[k] == d[k];
  }

  /**
    If the pump knows the earliest time in the delayed queue, it still does after a task has been added: unless
    the top, though it is due earlier, has an equal closure and is taken for the new task.
   */
  lemma AddKeepsDeadline(s: State, task: Task, top: nat)
    requires s.frames != [] && !task.Immediate() && IsTop(AddToDelayedWorkQueue(s, task), top)
    requires s.delayed != [] ==> s.delayedWorkTime == MinTime(s.delayed)
    ensures var t, d := DispatchWork(s, task, top), AddToDelayedWorkQueue(s, task);
            && t.delayed == d
            && (t.delayedWorkTime == MinTime(d) <==>
                  (d[top].task.closure == task.closure ==> task.runTime == MinTime(d)))
  {
    var d := AddToDelayedWorkQueue(s, task);
    MinTimeIsMinimum(d);
    assert d[|s.delayed|].task == task;
    if s.delayed != [] {
      MinTimeIsMinimum(s.delayed);
      MinTimeAppended(s.delayed, d[|s.delayed|]);
      assert top < |s.delayed| ==> d[top] == s.delayed[top];
    }
  }

  /** When the top is popped the pump hears of the next one, and of nothing if that was the last. */
  lemma PopKeepsDeadline(s: State, didWork: bool, top: nat)
    requires s.frames != [] && s.nestableAllowed && top < |s.delayed|
    requires DoDoDelayedWork(s, didWork, top).delayed != s.delayed
    ensures var t := DoDoDelayedWork(s, didWork, top);
            t.delayedWorkTime == if t.delayed == [] then s.delayedWorkTime else MinTime(t.delayed)
  {
  }

  // ----------------------------------------------------------------------------------------------
  // The clock
  // ----------------------------------------------------------------------------------------------

  /**
    While there are tasks that were due when the clock was last read, it is not read again: whatever it
    says, the same is done. When there are none left it is read, and what it says decides.
   */
  lemma ClockIsReadSeldom(s: State, didWork: bool, top: nat, now: nat)
    requires s.frames != [] && s.nestableAllowed && s.delayed != [] && IsTop(s.delayed, top)
    ensures MinTime(s.delayed) <= s.recentTime ==>
              && DoDoDelayedWork(s.(now := now), didWork, top) == DoDoDelayedWork(s, didWork, top).(now := now)
              && |DoDoDelayedWork(s, didWork, top).delayed| == |s.delayed| - 1
    ensures MinTime(s.delayed) > s.recentTime ==>
              var t := DoDoDelayedWork(s.(now := now), didWork, top);
              t.recentTime == now && (|t.delayed| == |s.delayed| - 1 <==> MinTime(s.delayed) <= now)
  {
  }

  /** A delayed task that is due but put off, in a nested run, does not count as work that was done. */
  lemma PutOffIsNoWork(s: State, didWork: bool, top: nat)
    requires s.frames != [] && LOOP_THREAD !in s.signallers && s.Top().pc == Pc.DoDelayedWork(didWork)
    requires s.nestableAllowed && s.delayed != [] && IsTop(s.delayed, top) && s.delayed[top].task.runTime <= s.now
    requires !s.delayed[top].task.nestable && s.Depth() > 1
    ensures PumpEnabled(s, top) && PumpEnabled(DoPump(s, top), 0)
    ensures var t := DoPump(DoPump(s, top), 0);
            && t.deferred == s.deferred + [s.delayed[top].task] && t.started == s.started
            && t.frames != [] && t.Top().pc == AfterDelayedWork(didWork)
  {
  }

  /** With nothing in the delayed queue the pump has no deadline, and the clock is read for the next task there. */
  lemma NothingDelayedIsForgotten(s: State, didWork: bool, top: nat)
    requires s.frames != [] && (!s.nestableAllowed || s.delayed == [])
    ensures var t := DoDoDelayedWork(s, didWork, top); t.recentTime == 0 && t.delayedWorkTime == 0
  {
  }

  /** A deadline that has passed at the wait is forgotten, and the pump looks again. */
  lemma PassedDeadlineIsForgotten(s: State)
    requires s.frames != [] && 0 < s.delayedWorkTime <= s.now
    ensures DoBeforeWait(s).delayedWorkTime == 0 && DoBeforeWait(s).Top().pc == Pc.DoWork
  {
  }

  /** Allowing nested tasks signals the pump, if they were not allowed; nothing else does but posts. */
  lemma AllowingSignals(s: State, step: Step)
    requires Enabled(s, step)
    ensures !s.event && Do(s, step).event ==>
              step.Signal? || (step == SetNestableTasksAllowed(true) && !s.nestableAllowed)
    ensures step.Signal? || (step == SetNestableTasksAllowed(true) && !s.nestableAllowed) ==> Do(s, step).event
    ensures step.SetNestableTasksAllowed? ==> Do(s, step).nestableAllowed == step.allowed
  {
    if step.Pump? { PumpGivesNoSignal(s, step.top); }
  }

  lemma PumpGivesNoSignal(s: State, top: nat)
    requires PumpEnabled(s, top)
    ensures DoPump(s, top).event ==> s.event
  {
    match s.Top().pc
    case Holding(_, _, _) => HoldingGivesNoSignal(s, top);
    case _ =>
  }

  lemma HoldingGivesNoSignal(s: State, top: nat)
    requires PumpEnabled(s, top) && s.Top().pc.Holding?
    ensures DoPump(s, top).event == s.event
  {
  }
}
