/** Left to itself, the pump comes to a task, to the end of its run, or to a wait with nothing to do. */
module MessageLoopProgress {
  import opened Basics
  import opened PendingTasks
  import opened MessageLoops
  import opened MessageLoopSafety
  import opened MessageLoopIdle
  import opened MessageLoopHistory
  import opened MessageLoopQuit

  // ----------------------------------------------------------------------------------------------
  // The pump can always move, except when it waits for something
  // ----------------------------------------------------------------------------------------------

  lemma {:induction false} TopOfFirst(d: seq<DelayedTask>, n: nat) returns (top: nat)
    requires 0 < n <= |d|
    ensures top < n
    ensures forall k :: 0 <= k < n ==> d[top].task.runTime <= d[k].task.runTime
    ensures NarrowQueue(d) ==> forall k :: 0 <= k < n ==> !RunsAfter(d[top], d[k])
    decreases n
  {
    if n == 1 {
      top := 0;
    } else {
      top := TopOfFirst(d, n - 1);
      if RunsAfter(d[top], d[n - 1]) { top := n - 1; }
    }
  }

  lemma TopExists(d: seq<DelayedTask>) returns (top: nat)
    requires d != []
    ensures IsTop(d, top)
  {
    top := TopOfFirst(d, |d|);
    MinTimeIsMinimum(d);
    if NarrowQueue(d) {
      forall k | 0 <= k < |d| ensures !Less(d[top], d[k]) {
        LessIsRunsAfter(d[top], d[k]);
      }
    }
  }

  /** DoWork's inner loop is only entered with something to pop. */
  ghost predicate DrainsSome(s: State) {
    s.frames != [] && s.Top().pc.Drain? ==> s.work != []
  }

  /** The loop thread is inside the pump, and not in client code. */
  ghost predicate InPump(s: State) {
    s.frames != [] && !s.Top().pc.InTask? && LOOP_THREAD !in s.signallers
  }

  /** Blocked on the event, with no signal and before the deadline. */
  ghost predicate IsBlocked(s: State) {
    && InPump(s) && s.Top().pc.Waiting? && !s.event
    && (s.Top().pc.until == 0 || s.now < s.Top().pc.until)
  }

  lemma PumpCanMove(s: State) returns (top: nat)
    requires DrainsSome(s) && InPump(s) && !IsBlocked(s)
    ensures PumpEnabled(s, top)
  {
    top := 0;
    match s.Top().pc
    case Holding(task, FromWork, _) => top := TopExists(AddToDelayedWorkQueue(s, task));
    case DoDelayedWork(_) => if s.delayed != [] { top := TopExists(s.delayed); }
    case _ =>
  }

  // ----------------------------------------------------------------------------------------------
  // And each move brings it closer
  // ----------------------------------------------------------------------------------------------

  /** A task weighs less the closer it is to its start. */
  ghost function Load(s: State): nat {
    4 * (|s.incoming| + |s.work|) + 2 * |s.delayed| +
    if s.frames != [] && s.Top().pc.Holding? then (if s.Top().pc.stage.FromWork? then 3 else 1) else 0
  }

  /** The deadline that the pump remembers has passed, so that it will go round once more. */
  predicate IsStale(s: State) {
    0 < s.delayedWorkTime <= s.now
  }

  /** How far it is from here to the wait, if no task is in the way. */
  function Distance(s: State): nat
    requires s.frames != []
  {
    var again := if IsStale(s) then 20 else 0;
    match s.Top().pc
    case DoWork => 12
    case Reload => 11
    case Drain => 10
    case AfterDoWork(did) => if did then 29 else 9
    case DoDelayedWork(did) => if did then 28 else 8
    case AfterDelayedWork(did) => if did then 27 else 7 + again
    case DoIdleWork => 6 + again
    case AfterIdleWork(did) => if did then 25 else 5 + again
    case BeforeWait => 4 + again
    case Waiting(_) => 1 + again
    case _ => 0
  }

  ghost predicate IsCloser(s: State, t: State)
    requires s.frames != [] && t.frames != []
  {
    || Load(t) < Load(s)
    || (Load(t) == Load(s) && s.event && !t.event)
    || (Load(t) == Load(s) && s.event == t.event && Distance(t) < Distance(s))
  }

  /** The run has come to the start of a task, or has ended. */
  ghost predicate Arrives(s: State, t: State) {
    || (|t.frames| == |s.frames| && t.frames != [] && t.Top().pc.InTask? && |t.started| == |s.started| + 1)
    || (|t.frames| == |s.frames| - 1 && t.keepRunning && t.started == s.started)
  }

  /** It is still in the pump, closer to one of its ends. */
  ghost predicate GoesOnCloser(s: State, t: State) {
    && |t.frames| == |s.frames| && InPump(t) && t.started == s.started && t.nestableAllowed == s.nestableAllowed
    && IsCloser(s, t)
  }

  /** What only other threads, the clock and client code change. */
  ghost predicate SameWorld(s: State, t: State) {
    t.now == s.now && t.posted == s.posted && t.signallers == s.signallers
  }

  ghost predicate MovesOn(s: State, t: State)
    requires InPump(s)
  {
    SameWorld(s, t) && DrainsSome(t) && (Arrives(s, t) || GoesOnCloser(s, t))
  }

  lemma WorkMovesOn(s: State, top: nat)
    requires InPump(s) && PumpEnabled(s, top) && DrainsSome(s)
    requires s.Top().pc.DoWork? || s.Top().pc.Reload? || s.Top().pc.Drain?
    ensures MovesOn(s, DoPump(s, top))
  {
  }

  lemma AddMovesOn(s: State, top: nat)
    requires InPump(s) && PumpEnabled(s, top) && s.Top().pc.Holding? && s.Top().pc.stage.FromWork?
    requires !s.Top().pc.task.Immediate()
    ensures MovesOn(s, DoPump(s, top))
  {
  }

  lemma DispatchMovesOn(s: State, top: nat)
    requires InPump(s) && PumpEnabled(s, top) && s.Top().pc.Holding?
    requires s.Top().pc.stage.FromWork? ==> s.Top().pc.task.Immediate()
    ensures MovesOn(s, DoPump(s, top))
  {
  }

  lemma DelayedMovesOn(s: State, top: nat)
    requires InPump(s) && PumpEnabled(s, top) && s.Top().pc.DoDelayedWork?
    ensures MovesOn(s, DoPump(s, top))
  {
  }

  lemma IdleMovesOn(s: State, top: nat)
    requires InPump(s) && PumpEnabled(s, top) && s.Top().pc.DoIdleWork?
    ensures MovesOn(s, DoPump(s, top))
  {
  }

  lemma CheckMovesOn(s: State, top: nat)
    requires InPump(s) && PumpEnabled(s, top) && Nesting(s)
    requires s.Top().pc.AfterDoWork? || s.Top().pc.AfterDelayedWork? || s.Top().pc.AfterIdleWork?
    ensures MovesOn(s, DoPump(s, top))
  {
    if !s.keepRunning && s.Depth() > 1 { assert s.frames[|s.frames| - 2].pc.InTask?; }
  }

  lemma RestMovesOn(s: State, top: nat)
    requires InPump(s) && PumpEnabled(s, top) && s.Top().pc.BeforeWait?
    ensures MovesOn(s, DoPump(s, top))
  {
  }

  lemma WakeMovesOn(s: State, top: nat)
    requires InPump(s) && PumpEnabled(s, top) && DeadlineKnown(s) && s.Top().pc.Waiting?
    ensures MovesOn(s, DoPump(s, top))
  {
  }

  lemma PumpMovesOn(s: State, top: nat)
    requires Safe(s) && InPump(s) && PumpEnabled(s, top) && DrainsSome(s)
    ensures MovesOn(s, DoPump(s, top))
  {
    match s.Top().pc
    case DoWork | Reload | Drain => WorkMovesOn(s, top);
    case Holding(task, stage, _) =>
      if stage.FromWork? && !task.Immediate() { AddMovesOn(s, top); } else { DispatchMovesOn(s, top); }
    case DoDelayedWork(_) => DelayedMovesOn(s, top);
    case DoIdleWork => IdleMovesOn(s, top);
    case BeforeWait => RestMovesOn(s, top);
    case Waiting(_) => WakeMovesOn(s, top);
    case _ => CheckMovesOn(s, top);
  }

  // ----------------------------------------------------------------------------------------------
  // What is due does not stay in the queue
  // ----------------------------------------------------------------------------------------------

  /** A delayed task has come to its time, or has been popped already. */
  ghost predicate IsDue(s: State) {
    || (exists k :: 0 <= k < |s.delayed| && s.delayed[k].task.runTime <= s.now)
    || (s.frames != [] && s.Top().pc.Holding? && s.Top().pc.stage.FromDelayed?)
  }

  lemma PumpKeepsDue(s: State, top: nat)
    requires PumpEnabled(s, top) && IsDue(s) && s.Depth() == 1 && s.nestableAllowed
    requires !s.Top().pc.Holding? && !s.Top().pc.DoDelayedWork?
    requires |DoPump(s, top).frames| == 1
    ensures IsDue(DoPump(s, top))
  {
  }

  lemma AddKeepsDue(s: State, top: nat)
    requires PumpEnabled(s, top) && IsDue(s) && s.Top().pc.Holding? && s.Top().pc.stage.FromWork?
    requires !s.Top().pc.task.Immediate()
    ensures IsDue(DoPump(s, top))
  {
    var k :| 0 <= k < |s.delayed| && s.delayed[k].task.runTime <= s.now;
    assert AddToDelayedWorkQueue(s, s.Top().pc.task)[k] == s.delayed[k];
  }

  lemma PopKeepsDue(s: State, top: nat)
    requires PumpEnabled(s, top) && IsDue(s) && s.nestableAllowed && s.Top().pc.DoDelayedWork?
    ensures IsDue(DoPump(s, top))
  {
    MinTimeIsMinimum(s.delayed);
    assert s.delayed[top].task.runTime <= s.now;
  }

  lemma StaysDue(s: State, top: nat)
    requires PumpEnabled(s, top) && IsDue(s) && s.Depth() == 1 && s.nestableAllowed
    requires GoesOnCloser(s, DoPump(s, top))
    ensures IsDue(DoPump(s, top))
  {
    var pc := s.Top().pc;
    if pc.DoDelayedWork? {
      PopKeepsDue(s, top);
    } else if pc.Holding? && pc.stage.FromWork? && !pc.task.Immediate() {
      AddKeepsDue(s, top);
    } else if !pc.Holding? {
      PumpKeepsDue(s, top);
    }
  }

  lemma BlockedIsNotDue(s: State)
    requires Safe(s) && IsBlocked(s) && s.nestableAllowed
    ensures !IsDue(s)
  {
    if s.delayed != [] { MinTimeIsMinimum(s.delayed); }
  }

  // ----------------------------------------------------------------------------------------------
  // Where the pump comes to
  // ----------------------------------------------------------------------------------------------

  ghost predicate ArePumps(steps: seq<Step>) {
    forall k :: 0 <= k < |steps| ==> steps[k].Pump?
  }

  /** A task has been started, the run is over, or the pump is blocked with nothing due. */
  ghost predicate Settled(s: State, t: State) {
    && SameWorld(s, t) && SameQuits(s, t)
    && (Arrives(s, t) ||
        (IsBlocked(t) && |t.frames| == |s.frames| && t.started == s.started && t.nestableAllowed == s.nestableAllowed))
    && (IsDue(s) && s.Depth() == 1 ==> !IsBlocked(t))
  }

  lemma SettledAfter(s: State, top: nat, t: State)
    requires Safe(s) && InPump(s) && PumpEnabled(s, top) && DrainsSome(s)
    requires GoesOnCloser(s, DoPump(s, top)) && Settled(DoPump(s, top), t)
    ensures Settled(s, t)
  {
    PumpMovesOn(s, top);
    PumpKeepsQuits(s, top);
    if IsDue(s) && s.Depth() == 1 { StaysDue(s, top); }
  }

  lemma {:induction false} Settles(s: State) returns (steps: seq<Step>, t: State)
    requires Safe(s) && DrainsSome(s) && InPump(s)
    ensures Possible(s, steps) && After(s, steps) == t && ArePumps(steps) && Settled(s, t)
    decreases Load(s), if s.event then 1 else 0, Distance(s)
  {
    if IsBlocked(s) {
      steps, t := [], s;
      if s.Depth() == 1 { BlockedIsNotDue(s); }
    } else {
      var top := PumpCanMove(s);
      var next := DoPump(s, top);
      PumpMovesOn(s, top);
      if GoesOnCloser(s, next) {
        PumpKeepsSafe(s, top);
        var more;
        more, t := Settles(next);
        SettledAfter(s, top, t);
        steps := [Pump(top)] + more;
      } else {
        PumpKeepsQuits(s, top);
        steps, t := [Pump(top)], next;
        assert Possible(next, []) && After(next, []) == next;
      }
    }
  }
}
