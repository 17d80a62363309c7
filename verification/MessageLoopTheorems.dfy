/** The main results about the message loop, for every run from the initial state. */
module MessageLoopTheorems {
  import opened PendingTasks
  import opened MessageLoops
  import opened MessageLoopSafety
  import opened MessageLoopHistory
  import opened MessageLoopDelayed
  import opened MessageLoopDeferral
  import opened MessageLoopIdle
  import opened MessageLoopQuit
  import opened MessageLoopProgress
  import opened MessageLoopService

  ghost predicate Reaches(steps: seq<Step>, s: State) {
    Possible(INIT, steps) && s == After(INIT, steps)
  }

  lemma ReachableIsSafe(steps: seq<Step>, s: State)
    requires Reaches(steps, s)
    ensures Safe(s) && History(PlacesOf(s))
  {
    InitHistory();
    RunKeepsSafe(INIT, steps);
    RunKeepsHistory(INIT, steps);
  }

  lemma InitIsSafe()
    ensures Safe(INIT)
  {
  }

  lemma InitHistory()
    ensures Safe(INIT) && History(PlacesOf(INIT)) && Ordered(TimelineOf(INIT))
    ensures InDeferralOrder(PlacesOf(INIT), INIT.putOff)
  {
    InitIsSafe();
    assert PlacesOf(INIT) == Places([], [], [], [], [], [], [], [], []);
    assert TimelineOf(INIT) == Timeline([], [], [], [], []);
  }

  /** The pump is at, or blocked in, the wait on its event. */
  predicate AtTheWait(s: State) {
    s.frames != [] && Rests(s.Top().pc)
  }

  /**
    No lost wake-up, although a post to a non-empty queue does not signal: with tasks allowed, the
    loop goes to sleep only with an empty work queue, and what is in the incoming queue has its
    signal set or on its way.
   */
  lemma SleepIsSafe(steps: seq<Step>, s: State)
    requires Reaches(steps, s) && AtTheWait(s) && s.nestableAllowed
    ensures s.work == []
    ensures s.incoming != [] ==> s.event || s.signallers != {}
  {
    ReachableIsSafe(steps, s);
  }

  /** The sleep ends in time: a limit is set, it is the earliest deadline, and at that time the loop can move. */
  lemma SleepEndsInTime(steps: seq<Step>, s: State)
    requires Reaches(steps, s) && AtTheWait(s) && s.nestableAllowed && s.delayed != []
    ensures s.delayedWorkTime == MinTime(s.delayed) > 0
    ensures s.Top().pc.Waiting? ==>
              && s.Top().pc.until == MinTime(s.delayed)
              && (s.now >= MinTime(s.delayed) ==> forall top :: PumpEnabled(s, top))
  {
    ReachableIsSafe(steps, s);
    MinTimeIsMinimum(s.delayed);
  }

  /** Nor is it too deep: the outermost run sleeps with no deferred task left, and no run that is to quit does. */
  lemma SleepLeavesNothingToDo(steps: seq<Step>, s: State)
    requires Reaches(steps, s) && AtTheWait(s)
    ensures s.Depth() == 1 ==> s.deferred == []
    ensures !s.Top().quitReceived
  {
    ReachableIsIdleDone(steps, s);
  }

  lemma ReachableIsIdleDone(steps: seq<Step>, s: State)
    requires Reaches(steps, s)
    ensures Safe(s) && IdleDone(s)
  {
    InitIsSafe();
    RunKeepsSafe(INIT, steps);
    RunKeepsIdleDone(INIT, steps);
  }

  /**
    RunAllPending never blocks: started from any place a client may start it from, and for as long as it
    goes on, whatever its tasks and the other threads do, its own frame is not at the wait.
   */
  lemma RunAllPendingNeverBlocks(before: seq<Step>, s: State, steps: seq<Step>)
    requires Reaches(before, s) && s.ClientTurn() && Possible(Do(s, EnterRun(true)), steps)
    requires GoesOn(Do(s, EnterRun(true)), steps, |s.frames|)
    ensures var s' := After(Do(s, EnterRun(true)), steps);
            |s.frames| < |s'.frames| && !Rests(s'.frames[|s.frames|].pc)
  {
    var inside := Do(s, EnterRun(true));
    ReachableIsIdleDone(before, s);
    StepKeepsSafe(s, EnterRun(true));
    StepKeepsIdleDone(s, EnterRun(true));
    RunKeepsSafe(inside, steps);
    RunKeepsIdleDone(inside, steps);
    QuitStays(inside, steps, |s.frames|);
    QuittingIsAwake(After(inside, steps), |s.frames|);
  }

  /**
    A run of Run goes on, whatever its tasks, nested runs and other threads do, until a task of its own,
    not of a nested run, calls Quit or QuitNow.
   */
  lemma RunGoesOnUntilAsked(before: seq<Step>, s: State, steps: seq<Step>)
    requires Reaches(before, s) && s.ClientTurn() && s.keepRunning && Possible(Do(s, EnterRun(false)), steps)
    requires IsNotAsked(Do(s, EnterRun(false)), steps, |s.frames|)
    ensures GoesOn(Do(s, EnterRun(false)), steps, |s.frames|)
  {
    UnaskedGoesOn(Do(s, EnterRun(false)), steps, |s.frames|);
  }

  lemma ReachableIsSound(steps: seq<Step>, s: State)
    requires Reaches(steps, s)
    ensures Sound(s)
  {
    InitHistory();
    RunKeepsSound(INIT, steps);
  }

  /** And a run that is to quit does end, with the pump's flag set again, once its tasks have returned. */
  lemma QuitEndsRun(before: seq<Step>, s: State)
    requires Reaches(before, s) && s.frames != [] && s.Top().quitReceived && LOOP_THREAD !in s.signallers
    ensures exists steps :: Possible(s, steps) && IsUndisturbed(steps) &&
                            |After(s, steps).frames| == |s.frames| - 1 && After(s, steps).keepRunning
  {
    ReachableIsSound(before, s);
    var steps, t := QuittingRunEnds(s);
  }

  /**
    The outermost run, from any reachable state in which it has not been asked to end, gets all tasks that
    were posted started, if they do nothing but return: none is ever stuck, in whatever queue it is.
   */
  lemma EveryTaskGetsItsTurn(before: seq<Step>, s: State)
    requires Reaches(before, s) && s.Depth() == 1 && s.keepRunning && !s.Top().quitReceived
    ensures exists steps :: Possible(s, steps) && IsUndisturbed(steps) &&
                            multiset(Tasks(After(s, steps).started)) == multiset(s.posted)
  {
    ReachableIsSound(before, s);
    var steps, t := AllGetStarted(s);
    RunKeepsSound(s, steps);
    AllStarted(t);
  }

  lemma AllStarted(s: State)
    requires Sound(s) && Unstarted(s) == 0
    ensures multiset(Tasks(s.started)) == multiset(s.posted)
  {
    UnstartedAreSomewhere(s);
    var p := PlacesOf(s);
    assert p.incoming == [] && p.work == [] && p.fromWork == [];
    assert p.delayed == [] && p.fromDelayed == [] && p.deferred == [];
    assert p.posted == s.posted && p.started == Tasks(s.started);
  }

  /**
    In any run, nested ones too, the pump by itself comes to the start of a task, to the end of its run, or
    to a wait before whose deadline, and without a signal, there is nothing it could do.
   */
  lemma PumpSettles(before: seq<Step>, s: State)
    requires Reaches(before, s) && InPump(s)
    ensures exists steps :: Possible(s, steps) && ArePumps(steps) &&
                            (Arrives(s, After(s, steps)) || IsBlocked(After(s, steps)))
  {
    ReachableIsSound(before, s);
    var steps, t := Settles(s);
  }

  /** No task is started, or taken out of the delayed queue, before its time. */
  lemma NothingStartsEarly(steps: seq<Step>, s: State)
    requires Reaches(steps, s)
    ensures forall k :: 0 <= k < |s.started| ==> s.started[k].task.runTime <= s.now
    ensures s.frames != [] && s.Top().pc.Holding? && s.Top().pc.stage.FromDelayed? ==>
              s.Top().pc.task.runTime <= s.recentTime <= s.now
  {
    ReachableIsSafe(steps, s);
  }

  /**
    Reentrancy: tasks start only with the flag up, which is the DCHECK in RunTask, also on the idle
    path that does not test the flag; non-nestable ones only in the outermost run; and of those that
    were put off, in that order, some have started, in that order, and the others are still waiting.
   */
  lemma ReentrancyDiscipline(steps: seq<Step>, s: State)
    requires Reaches(steps, s)
    ensures forall k :: 0 <= k < |s.started| ==>
              s.started[k].allowed && (s.started[k].task.nestable || s.started[k].depth == 1)
    ensures Only(Tasks(s.started), s.putOff) + s.deferred == s.putOff
    ensures s.frames != [] && s.Top().pc.DoIdleWork? && s.Depth() == 1 ==> s.nestableAllowed
  {
    ReachableIsSafe(steps, s);
    InitHistory();
    RunKeepsDeferralOrder(INIT, steps);
  }

  /** First in, first out, over all runs: what has started, then what is upstream, is what was posted. */
  lemma PromptTasksStartInOrder(steps: seq<Step>, s: State)
    requires Reaches(steps, s)
    ensures Select(Prompt, Tasks(s.started)) + Select(Prompt, InHand(s, true) + s.work + s.incoming) ==
            Select(Prompt, s.posted)
  {
    ReachableIsSafe(steps, s);
  }

  /** Conservation: every posted task is in exactly one place, and there is nothing else anywhere. */
  lemma TasksAreConserved(steps: seq<Step>, s: State)
    requires Reaches(steps, s)
    ensures multiset(s.posted) ==
              multiset(s.incoming) + multiset(s.work) + multiset(InHand(s, true)) +
              multiset(DelayedTasks(s.delayed)) + multiset(InHand(s, false)) + multiset(s.deferred) +
              multiset(Tasks(s.started))
    ensures forall i, j :: 0 <= i < j < |s.posted| ==> s.posted[i] != s.posted[j]
  {
    ReachableIsSafe(steps, s);
    assert PlacesOf(s).posted == s.posted;
    forall i, j | 0 <= i < j < |s.posted| ensures s.posted[i] != s.posted[j] {
      assert PlacesOf(s).posted[i].id == i && PlacesOf(s).posted[j].id == j;
    }
  }

  /**
    Of two delayed tasks, if the one posted first is nestable and due no later, then it has started
    before the other one does.
   */
  lemma DelayedTasksStartInOrder(steps: seq<Step>, s: State, first: Task, second: Task, j: nat)
    requires Reaches(steps, s) && StaysNarrow(INIT, steps)
    requires first in s.posted && !first.Immediate() && first.nestable
    requires first.id < second.id && first.runTime <= second.runTime
    requires j < |s.started| && s.started[j].task == second
    ensures exists i :: 0 <= i < j && s.started[i].task == first
  {
    InitHistory();
    RunKeepsOrdered(INIT, steps);
    var i := PostedFirstStartsFirst(PlacesOf(s), TimelineOf(s), first, second, j);
    assert Tasks(s.started)[i] == s.started[i].task;
  }

  /** Which is so whenever no more than 2^31 tasks have been posted. */
  lemma FewDelayedTasksStartInOrder(steps: seq<Step>, s: State, first: Task, second: Task, j: nat)
    requires Reaches(steps, s) && |s.posted| <= TWO_31
    requires first in s.posted && !first.Immediate() && first.nestable
    requires first.id < second.id && first.runTime <= second.runTime
    requires j < |s.started| && s.started[j].task == second
    ensures exists i :: 0 <= i < j && s.started[i].task == first
  {
    InitHistory();
    FewStayNarrow(INIT, steps);
    DelayedTasksStartInOrder(steps, s, first, second, j);
  }

  lemma PostedFirstStartsFirst(p: Places, q: Timeline, first: Task, second: Task, j: nat) returns (i: nat)
    requires Numbered(p) && TimedOrder(p) && Ordered(q) && q.timed == p.timed
    requires first in p.posted && !first.Immediate() && first.nestable
    requires first.id < second.id && first.runTime <= second.runTime
    requires j < |q.started| && q.started[j] == second
    ensures i < j && q.started[i] == first
  {
    var all := Select(Timed, p.posted);
    TimedIncreasing(p);
    SelectIncreasing(Timed, p.posted);
    SelectMembers(Timed, p.posted);
    var a :| 0 <= a < |all| && all[a] == first;
    assert q.Taken(second);
    var b: nat :| q.Gone(second, b);
    assert all[b] == second;
    assert q.timed[a] == first && q.timed[a] in q.started[..j];
    i :| 0 <= i < |q.started[..j]| && q.started[..j][i] == first;
    assert q.started[i] == first;
  }
}
