/** A task is not reentrant unless it says so: what nested runs inside of it may start. */
module MessageLoopReentrancy {
  import opened PendingTasks
  import opened MessageLoops
  import opened MessageLoopSafety
  import opened MessageLoopIdle
  import opened MessageLoopHistory
  import opened MessageLoopDelayed
  import opened MessageLoopQuit
  import opened MessageLoopProgress
  import opened MessageLoopService
  import opened MessageLoopTheorems

  // ----------------------------------------------------------------------------------------------
  // Nothing starts inside of a task that has not allowed it
  // ----------------------------------------------------------------------------------------------

  /** Neither has the task at this place of the stack returned, nor has anybody allowed nested tasks. */
  ghost predicate StaysInTask(s: State, steps: seq<Step>, place: nat)
    requires Possible(s, steps)
    decreases |steps|
  {
    steps != [] ==>
      && steps[0] != SetNestableTasksAllowed(true)
      && (steps[0] == FinishTask ==> |s.frames| != place + 1)
      && StaysInTask(Do(s, steps[0]), steps[1..], place)
  }

  /** Above the task there are only runs that find nothing they may do. */
  ghost predicate IsInside(s: State, place: nat) {
    && place < |s.frames| && s.frames[place].pc.InTask? && !s.nestableAllowed
    && (|s.frames| > place + 1 ==> |s.frames| == place + 2 && !s.Top().pc.InTask? && !FlagWasTested(s.Top().pc))
  }

  lemma ClientStaysInside(s: State, step: Step, place: nat)
    requires Safe(s) && IsInside(s, place) && Enabled(s, step) && !step.Pump?
    requires step != SetNestableTasksAllowed(true) && (step == FinishTask ==> |s.frames| != place + 1)
    ensures IsInside(Do(s, step), place) && Do(s, step).started == s.started
  {
  }

  lemma PumpStaysInside(s: State, top: nat, place: nat)
    requires IsInside(s, place) && PumpEnabled(s, top)
    ensures IsInside(DoPump(s, top), place) && DoPump(s, top).started == s.started
  {
  }

  lemma {:induction false} RunStaysInside(s: State, steps: seq<Step>, place: nat)
    requires Safe(s) && IsInside(s, place) && Possible(s, steps) && StaysInTask(s, steps, place)
    ensures After(s, steps).started == s.started
    decreases |steps|
  {
    if steps != [] {
      StepKeepsSafe(s, steps[0]);
      if steps[0].Pump? { PumpStaysInside(s, steps[0].top, place); } else { ClientStaysInside(s, steps[0], place); }
      RunStaysInside(Do(s, steps[0]), steps[1..], place);
    }
  }

  /** A move that starts a task leaves the loop inside of it, with the flag down. */
  lemma StartGoesInside(s: State, top: nat)
    requires PumpEnabled(s, top) && |DoPump(s, top).started| > |s.started|
    ensures IsInside(DoPump(s, top), |s.frames| - 1)
  {
  }

  /**
    From the start of a task until it returns, no other task starts, whatever runs are nested in it and
    whatever anybody posts, unless nested tasks have been allowed in it.
   */
  lemma TasksAreNotReentrant(before: seq<Step>, s: State, top: nat, steps: seq<Step>)
    requires Reaches(before, s) && PumpEnabled(s, top) && |DoPump(s, top).started| > |s.started|
    requires Possible(DoPump(s, top), steps) && StaysInTask(DoPump(s, top), steps, |s.frames| - 1)
    ensures After(DoPump(s, top), steps).started == DoPump(s, top).started
  {
    ReachableIsSafe(before, s);
    StartGoesInside(s, top);
    StepKeepsSafe(s, Pump(top));
    RunStaysInside(DoPump(s, top), steps, |s.frames| - 1);
  }

  /**
    If nested tasks are allowed in a task, a run nested in it does start tasks: an immediate nestable one
    that is queued when the run begins is not left for later.
   */
  lemma NestedTasksRunWhenAllowed(before: seq<Step>, s: State, task: Task)
    requires Reaches(before, s) && s.ClientTurn() && s.frames != [] && s.keepRunning && s.signallers == {}
    requires task in s.work + s.incoming && IsA(Prompt, task)
    ensures var inside := Do(Do(s, SetNestableTasksAllowed(true)), EnterRun(false));
            exists steps :: Possible(inside, steps) && ArePumps(steps) &&
                            |After(inside, steps).frames| == |s.frames| + 1 &&
                            |After(inside, steps).started| == |s.started| + 1
  {
    ReachableIsSound(before, s);
    InsideIsReached(s);
    InsideIsSound(s);
    var steps := NestedRunStarts(Inside(s), task);
  }

  /** The state in which a run starts that is nested in a task with nested tasks allowed. */
  function Inside(s: State): State
    requires s.ClientTurn() && s.frames != []
  {
    s.(nestableAllowed := true, event := s.event || !s.nestableAllowed, frames := s.frames + [Frame(Pc.DoWork, false)])
  }

  lemma InsideIsReached(s: State)
    requires s.ClientTurn() && s.frames != []
    ensures Enabled(s, SetNestableTasksAllowed(true)) && Enabled(Do(s, SetNestableTasksAllowed(true)), EnterRun(false))
    ensures Do(Do(s, SetNestableTasksAllowed(true)), EnterRun(false)) == Inside(s)
  {
  }

  lemma InsideIsSound(s: State)
    requires Sound(s) && s.ClientTurn() && s.frames != []
    ensures Sound(Inside(s))
  {
    InsideIsReached(s);
    StepKeepsSound(s, SetNestableTasksAllowed(true));
    StepKeepsSound(Do(s, SetNestableTasksAllowed(true)), EnterRun(false));
  }

  lemma NestedRunStarts(s: State, task: Task) returns (steps: seq<Step>)
    requires Sound(s) && InPump(s) && s.nestableAllowed && s.signallers == {} && IsToGoOn(s, |s.frames| - 1)
    requires task in PlacesOf(s).Upstream() && IsA(Prompt, task)
    ensures Possible(s, steps) && ArePumps(steps)
    ensures |After(s, steps).frames| == |s.frames| && |After(s, steps).started| == |s.started| + 1
  {
    var t;
    steps, t := Settles(s);
    RunKeepsSound(s, steps);
    PumpsGoOn(s, steps);
    if IsBlocked(t) { BlockedHasStarted(s, t, task); }
  }

  lemma PumpsGoOn(s: State, steps: seq<Step>)
    requires Possible(s, steps) && ArePumps(steps) && s.frames != [] && IsToGoOn(s, |s.frames| - 1)
    ensures |After(s, steps).frames| >= |s.frames|
  {
    PumpsAreUndisturbed(steps);
    UndisturbedIsNotAsked(s, steps, |s.frames| - 1);
    UnaskedGoesOn(s, steps, |s.frames| - 1);
  }

  lemma PumpsAreUndisturbed(steps: seq<Step>)
    requires ArePumps(steps)
    ensures IsUndisturbed(steps)
  {
  }

  /** A pump that has blocked without starting anything had no prompt task before it. */
  lemma BlockedHasStarted(s: State, t: State, task: Task)
    requires Sound(s) && Sound(t) && SameWorld(s, t) && s.started == t.started && s.signallers == {} && IsBlocked(t)
    requires IsA(Prompt, task) && task in PlacesOf(s).Upstream()
    ensures !t.nestableAllowed
  {
    if t.nestableAllowed {
      assert PlacesOf(t).Upstream() == [];
      SelectMembers(Prompt, PlacesOf(s).Upstream());
    }
  }

  /** QuitNow ends the run as soon as its task has returned, and nothing else is done. */
  lemma QuitNowEndsRun(before: seq<Step>, s: State)
    requires Reaches(before, s) && s.ClientTurn() && s.frames != []
    ensures var t := Do(Do(s, QuitNow), FinishTask);
            && PumpEnabled(t, 0) && DoPump(t, 0).frames == s.frames[..|s.frames| - 1] && DoPump(t, 0).keepRunning
            && DoPump(t, 0).started == s.started
  {
  }

  /**
    Whenever a move of the pump starts a task, the flag is up, the task is nestable or the run is the
    outermost one, and what is recorded of the start is how things are.
   */
  lemma StartsAreDisciplined(before: seq<Step>, s: State, top: nat)
    requires Reaches(before, s) && PumpEnabled(s, top) && |DoPump(s, top).started| > |s.started|
    ensures var t := DoPump(s, top);
            && t.frames != [] && t.Top().pc.InTask? && s.nestableAllowed
            && (t.Top().pc.task.nestable || |s.frames| == 1)
            && t.started == s.started + [Start(t.Top().pc.task, |s.frames|, true)]
  {
    ReachableIsSafe(before, s);
    StartIsRecorded(s, top);
  }

  /** `t` is `s` after the start of a task in the run on top. */
  ghost predicate HasStarted(s: State, t: State) {
    && s.frames != [] && |t.frames| == |s.frames| && t.Top().pc.InTask?
    && (t.Top().pc.task.nestable || |s.frames| == 1)
    && t.started == s.started + [Start(t.Top().pc.task, |s.frames|, s.nestableAllowed)]
  }

  lemma HoldingStarts(s: State, top: nat)
    requires PumpEnabled(s, top) && s.Top().pc.Holding?
    ensures DoPump(s, top).started == s.started || HasStarted(s, DoPump(s, top))
  {
  }

  lemma IdleStarts(s: State, top: nat)
    requires PumpEnabled(s, top) && s.Top().pc.DoIdleWork?
    ensures DoPump(s, top).started == s.started || HasStarted(s, DoPump(s, top))
  {
  }

  lemma OthersStartNothing(s: State, top: nat)
    requires PumpEnabled(s, top) && !s.Top().pc.Holding? && !s.Top().pc.DoIdleWork?
    ensures DoPump(s, top).started == s.started
  {
  }

  lemma StartIsRecorded(s: State, top: nat)
    requires PumpEnabled(s, top) && |DoPump(s, top).started| > |s.started|
    ensures HasStarted(s, DoPump(s, top)) && (s.Top().pc.Holding? || |s.frames| == 1)
  {
    if s.Top().pc.Holding? { HoldingStarts(s, top); }
    else if s.Top().pc.DoIdleWork? { IdleStarts(s, top); }
    else { OthersStartNothing(s, top); }
  }
}
