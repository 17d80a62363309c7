/** The waits of the pump, of which the main results speak, are reached. */
module MessageLoopWaits {
  import opened PendingTasks
  import opened MessageLoops
  import opened MessageLoopProgress
  import opened MessageLoopService
  import opened MessageLoopTheorems

  /** The waits do come about: without a limit in a loop with no tasks, and until the time of a delayed one. */
  lemma LoopWaits()
    ensures exists steps, s :: Reaches(steps, s) && s.frames != [] && s.Top().pc == Waiting(0)
    ensures exists steps, s :: Reaches(steps, s) && s.frames != [] && s.Top().pc == Waiting(5)
  {
    IdleLoopWaits();
    DelayedTaskIsWaitedFor();
  }

  /** One step more. */
  lemma Reach(steps: seq<Step>, s: State, step: Step)
    requires Reaches(steps, s) && Enabled(s, step)
    ensures Reaches(steps + [step], Do(s, step))
  {
    OneStep(s, step);
    JoinSteps(INIT, steps, [step]);
  }

  /** The pump's moves from the end of DoWork, when nothing is due and nobody quits. */
  lemma GoesToIdleWork(steps: seq<Step>, s: State) returns (more: seq<Step>, t: State)
    requires Reaches(steps, s) && InPump(s) && s.Top() == Frame(AfterDoWork(false), false) && s.Depth() == 1
    requires s.keepRunning && s.deferred == [] && s.nestableAllowed
    requires |s.delayed| <= 1 && s.recentTime <= s.now && (s.delayed != [] ==> s.delayed[0].task.runTime > s.now)
    ensures Reaches(more, t) && InPump(t) && t.Top() == Frame(Pc.DoIdleWork, false) && t.Depth() == 1
    ensures t.keepRunning && t.deferred == [] && t.now == s.now
    ensures t.delayedWorkTime == if s.delayed == [] then 0 else s.delayed[0].task.runTime
  {
    if s.delayed != [] { OneIsTop(s.delayed); }
    more, t := steps + [Pump(0)], Do(s, Pump(0));
    Reach(steps, s, Pump(0));
    assert t.Top().pc == Pc.DoDelayedWork(false);
    Reach(more, t, Pump(0));
    more, t := more + [Pump(0)], Do(t, Pump(0));
    assert t.Top().pc == AfterDelayedWork(false);
    Reach(more, t, Pump(0));
    more, t := more + [Pump(0)], Do(t, Pump(0));
  }

  /** And from there to the wait. */
  lemma GoesToTheWait(steps: seq<Step>, s: State) returns (more: seq<Step>, t: State)
    requires Reaches(steps, s) && InPump(s) && s.Top() == Frame(Pc.DoIdleWork, false) && s.Depth() == 1
    requires s.keepRunning && s.deferred == [] && (s.delayedWorkTime == 0 || s.delayedWorkTime > s.now)
    ensures Reaches(more, t) && t.frames != [] && t.Top().pc == Waiting(s.delayedWorkTime)
  {
    more, t := steps + [Pump(0)], Do(s, Pump(0));
    Reach(steps, s, Pump(0));
    assert t.Top().pc == AfterIdleWork(false);
    Reach(more, t, Pump(0));
    more, t := more + [Pump(0)], Do(t, Pump(0));
    assert t.Top().pc == BeforeWait;
    Reach(more, t, Pump(0));
    more, t := more + [Pump(0)], Do(t, Pump(0));
  }

  lemma OneIsTop(d: seq<DelayedTask>)
    requires |d| == 1
    ensures IsTop(d, 0)
  {
    LessIsRunsAfter(d[0], d[0]);
  }

  lemma IdleLoopWaits()
    ensures exists steps, s :: Reaches(steps, s) && s.frames != [] && s.Top().pc == Waiting(0)
  {
    assert Reaches([], INIT);
    Reach([], INIT, EnterRun(false));
    var s := Do(INIT, EnterRun(false));
    Reach([] + [EnterRun(false)], s, Pump(0));
    var t := Do(s, Pump(0));
    var steps := [] + [EnterRun(false)] + [Pump(0)];
    Reach(steps, t, Pump(0));
    var more, u := GoesToIdleWork(steps + [Pump(0)], Do(t, Pump(0)));
    var last, v := GoesToTheWait(more, u);
  }

  lemma DelayedTaskIsWaitedFor()
    ensures exists steps, s :: Reaches(steps, s) && s.frames != [] && s.Top().pc == Waiting(5)
  {
    assert Reaches([], INIT);
    var post := Post(LOOP_THREAD, 7, 5, true);
    Reach([], INIT, post);
    var s, steps := Do(INIT, post), [] + [post];
    Reach(steps, s, Signal(LOOP_THREAD));
    s, steps := Do(s, Signal(LOOP_THREAD)), steps + [Signal(LOOP_THREAD)];
    Reach(steps, s, EnterRun(false));
    s, steps := Do(s, EnterRun(false)), steps + [EnterRun(false)];
    Reach(steps, s, Pump(0));
    s, steps := Do(s, Pump(0)), steps + [Pump(0)];
    Reach(steps, s, Pump(0));
    s, steps := Do(s, Pump(0)), steps + [Pump(0)];
    assert s.Top().pc == Drain && s.work == [Task(0, 7, 5, true)];
    Reach(steps, s, Pump(0));
    s, steps := Do(s, Pump(0)), steps + [Pump(0)];
    assert s.Top().pc == Holding(Task(0, 7, 5, true), FromWork, false);
    Reach(steps, s, Pump(0));
    s, steps := Do(s, Pump(0)), steps + [Pump(0)];
    assert s.Top().pc == Reload;
    Reach(steps, s, Pump(0));
    var more, u := GoesToIdleWork(steps + [Pump(0)], Do(s, Pump(0)));
    var last, v := GoesToTheWait(more, u);
  }
}
