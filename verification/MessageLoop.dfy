/**
  base/message_loop.cc on top of base/message_pump_default.cc, as a transition system.

  Any number of threads post tasks; a post is two steps, the locked push and, if the queue was empty,
  the later signal. The loop thread has a stack of runs, one frame for each AutoRunState, and only
  the top frame moves: either it is inside a task, and then client code decides what happens next, or
  it is at a point of MessagePumpDefault::Run or of a delegate method called from there. A step is
  what happens between two points where another thread can interfere.
 */
module MessageLoops {
  import opened Basics
  import opened PendingTasks

  // ----------------------------------------------------------------------------------------------
  // States
  // ----------------------------------------------------------------------------------------------

  /** Where a task comes from: DoWork, DoDelayedWork or DoIdleWork. */
  datatype Stage = FromWork | FromDelayed | FromIdle

  datatype Pc =
    | DoWork                                             // about to call delegate->DoWork()
    | Reload                                             // in DoWork, at the top of its outer loop
    | Drain                                              // in DoWork, about to pop work_queue_
    | Holding(task: Task, stage: Stage, didWork: bool)   // the task is popped, but nothing else is done yet
    | InTask(task: Task, stage: Stage)                   // inside RunTask
    | AfterDoWork(didWork: bool)
    | DoDelayedWork(didWork: bool)
    | AfterDelayedWork(didWork: bool)
    | DoIdleWork
    | AfterIdleWork(didWork: bool)
    | BeforeWait
    | Waiting(until: nat)                                // blocked on the event; 0 means without a limit

  /** One AutoRunState, and how far its call of the pump's Run has come. */
  datatype Frame = Frame(pc: Pc, quitReceived: bool)

  /** A task that was started: at which run depth, and what nestable_tasks_allowed_ was just before. */
  datatype Start = Start(task: Task, depth: nat, allowed: bool)

  datatype State = State(
    // MessageLoop
    incoming: seq<Task>, work: seq<Task>, delayed: seq<DelayedTask>, deferred: seq<Task>,
    nestableAllowed: bool, frames: seq<Frame>, recentTime: nat,
    // MessagePumpDefault
    keepRunning: bool, event: bool, delayedWorkTime: nat,
    // the rest of the world: the clock, and the threads between push and signal
    now: nat, signallers: set<int>,
    // history
    posted: seq<Task>, started: seq<Start>, putOff: seq<Task>, resumed: seq<Task>, timed: seq<Task>)
  {
    function Depth(): nat { |frames| }

    function Top(): Frame
      requires frames != []
    {
      frames[|frames| - 1]
    }

    function At(pc: Pc): State
      requires frames != []
    {
      this.(frames := frames[|frames| - 1 := Top().(pc := pc)])
    }

    /** Client code runs on the loop thread: in a task, or outside of all runs. */
    predicate ClientTurn() {
      LOOP_THREAD !in signallers && (frames == [] || Top().pc.InTask?)
    }
  }

  const LOOP_THREAD: int := 0

  const INIT := State([], [], [], [], true, [], 0, true, false, 0, 0, {}, [], [], [], [], [])

  datatype Step =
    | Tick(elapsed: nat)
    | Post(thread: int, closure: nat, runTime: nat, nestable: bool)
    | Signal(thread: int)
    | EnterRun(untilIdle: bool)              // Run, or RunAllPending
    | SetNestableTasksAllowed(allowed: bool)
    | Quit
    | QuitNow
    | FinishTask
    | Pump(top: nat)                         // the loop thread moves on; `top` is the index of the heap's top

  // ----------------------------------------------------------------------------------------------
  // The delayed queue
  // ----------------------------------------------------------------------------------------------

  /** The sequence numbers are less than 2^31 apart, so that the comparison is an order. */
  predicate NarrowQueue(d: seq<DelayedTask>) {
    forall j, k :: 0 <= j < |d| && 0 <= k < |d| ==> -TWO_31 < d[j].order - d[k].order < TWO_31
  }

  /**
    The top of the heap. Since no parent compares less than its child, the top has the least run
    time whatever becomes of the sequence numbers; where the comparison is an order, nothing at all
    compares greater.
   */
  predicate IsTop(d: seq<DelayedTask>, i: nat) {
    && i < |d| && d[i].task.runTime == MinTime(d)
    && (NarrowQueue(d) ==> forall k :: 0 <= k < |d| ==> !Less(d[i], d[k]))
  }

  function MinTime(d: seq<DelayedTask>): nat
    requires d != []
  {
    if |d| == 1 then d[0].task.runTime
    else
      var rest := MinTime(d[1..]);
      if d[0].task.runTime < rest then d[0].task.runTime else rest
  }

  lemma {:induction false} MinTimeIsMinimum(d: seq<DelayedTask>)
    requires d != []
    ensures forall k :: 0 <= k < |d| ==> MinTime(d) <= d[k].task.runTime
    ensures exists k :: 0 <= k < |d| && MinTime(d) == d[k].task.runTime
    decreases d
  {
    if |d| > 1 {
      MinTimeIsMinimum(d[1..]);
      var k :| 0 <= k < |d[1..]| && MinTime(d[1..]) == d[1..][k].task.runTime;
      assert d[k + 1].task.runTime == MinTime(d[1..]);
      assert d[0].task.runTime == d[0].task.runTime;
      forall j | 0 <= j < |d| ensures MinTime(d) <= d[j].task.runTime {
        if j > 0 { assert d[j] == d[1..][j - 1]; }
      }
    } else {
      assert d[0].task.runTime == MinTime(d);
    }
  }

  function AddToDelayedWorkQueue(s: State, task: Task): seq<DelayedTask> {
    s.delayed + [DelayedTask(task, |s.timed|)]
  }

  // ----------------------------------------------------------------------------------------------
  // Steps
  // ----------------------------------------------------------------------------------------------

  predicate PumpEnabled(s: State, top: nat) {
    && LOOP_THREAD !in s.signallers && s.frames != [] && !s.Top().pc.InTask?
    && match s.Top().pc
       case Waiting(until) => s.event || (until != 0 && until <= s.now)
       case Drain => s.work != []
       case Holding(task, FromWork, _) => !task.Immediate() ==> IsTop(AddToDelayedWorkQueue(s, task), top)
       case DoDelayedWork(_) => s.nestableAllowed && s.delayed != [] ==> IsTop(s.delayed, top)
       case _ => true
  }

  predicate Enabled(s: State, step: Step) {
    match step
    case Tick(_) => true
    case Post(thread, _, _, _) => thread !in s.signallers && (thread == LOOP_THREAD ==> s.ClientTurn())
    case Signal(thread) => thread in s.signallers
    case EnterRun(_) => s.ClientTurn()
    case Pump(top) => PumpEnabled(s, top)
    case _ => s.ClientTurn() && s.frames != []
  }

  /** AddToIncomingQueue up to the end of the lock. */
  function DoPost(s: State, thread: int, closure: nat, runTime: nat, nestable: bool): State {
    var task := Task(|s.posted|, closure, runTime, nestable);
    s.(incoming := s.incoming + [task],
       posted := s.posted + [task],
       signallers := if s.incoming == [] then s.signallers + {thread} else s.signallers)
  }

  /** RunTask up to the call of the task. */
  function RunTask(s: State, task: Task, stage: Stage): State
    requires s.frames != []
  {
    s.(nestableAllowed := false, started := s.started + [Start(task, s.Depth(), s.nestableAllowed)])
    .At(InTask(task, stage))
  }

  function DoFinishTask(s: State): State
    requires s.frames != [] && s.Top().pc.InTask?
  {
    s.(nestableAllowed := true).At(
      match s.Top().pc.stage
      case FromWork => AfterDoWork(true)
      case FromDelayed => AfterDelayedWork(true)
      case FromIdle => AfterIdleWork(true))
  }

  /** The loop condition of DoWork's inner loop. */
  function NextInDoWork(s: State): Pc {
    if s.work == [] then Reload else Drain
  }

  function DeferOrRunPendingTask(s: State, task: Task, stage: Stage, didWork: bool): State
    requires s.frames != []
  {
    if task.nestable || s.Depth() == 1 then RunTask(s, task, stage)
    else s.(deferred := s.deferred + [task], putOff := s.putOff + [task])
         .At(if stage.FromWork? then NextInDoWork(s) else AfterDelayedWork(didWork))
  }

  function DoReload(s: State): State
    requires s.frames != []
  {
    if s.work != [] then s.At(Drain)
    else if s.incoming == [] then s.At(AfterDoWork(false))
    else s.(work := s.incoming, incoming := []).At(Drain)
  }

  function DispatchWork(s: State, task: Task, top: nat): State
    requires s.frames != []
    requires !task.Immediate() ==> top <= |s.delayed|
  {
    if task.Immediate() then DeferOrRunPendingTask(s, task, FromWork, false)
    else
      var d := AddToDelayedWorkQueue(s, task);
      s.(delayed := d, timed := s.timed + [task],
         delayedWorkTime := if d[top].task.closure == task.closure then task.runTime else s.delayedWorkTime)
      .At(NextInDoWork(s))
  }

  function DoDoDelayedWork(s: State, didWork: bool, top: nat): State
    requires s.frames != []
    requires s.nestableAllowed && s.delayed != [] ==> top < |s.delayed|
  {
    if !s.nestableAllowed || s.delayed == [] then
      s.(recentTime := 0, delayedWorkTime := 0).At(AfterDelayedWork(didWork))
    else
      var next := s.delayed[top].task;
      var recent := if next.runTime > s.recentTime then s.now else s.recentTime;
      if next.runTime > recent then
        s.(recentTime := recent, delayedWorkTime := next.runTime).At(AfterDelayedWork(didWork))
      else
        var rest := WithoutAt(s.delayed, top);
        s.(recentTime := recent, delayed := rest,
           delayedWorkTime := if rest != [] then MinTime(rest) else s.delayedWorkTime)
        .At(Holding(next, FromDelayed, didWork))
  }

  function DoDoIdleWork(s: State): State
    requires s.frames != []
  {
    if s.Depth() == 1 && s.deferred != [] then
      RunTask(s.(deferred := s.deferred[1..], resumed := s.resumed + [s.deferred[0]]), s.deferred[0], FromIdle)
    else
      s.(keepRunning := s.keepRunning && !s.Top().quitReceived).At(AfterIdleWork(false))
  }

  function DoBeforeWait(s: State): State
    requires s.frames != []
  {
    if s.delayedWorkTime == 0 then s.At(Waiting(0))
    else if s.delayedWorkTime > s.now then s.At(Waiting(s.delayedWorkTime))
    else s.(delayedWorkTime := 0).At(DoWork)
  }

  /** Where MessagePumpDefault::Run goes after a delegate method: out of Run, back to the top, or on. */
  function CheckKeepRunning(s: State, onward: Pc): State
    requires s.frames != []
  {
    if s.keepRunning then s.At(onward)
    else s.(keepRunning := true, frames := s.frames[..|s.frames| - 1])
  }

  function DoPump(s: State, top: nat): State
    requires PumpEnabled(s, top)
  {
    match s.Top().pc
    case DoWork => if s.nestableAllowed then s.At(Reload) else s.At(AfterDoWork(false))
    case Reload => DoReload(s)
    case Drain => s.(work := s.work[1..]).At(Holding(s.work[0], FromWork, false))
    case Holding(task, FromWork, _) => DispatchWork(s, task, top)
    case Holding(task, stage, didWork) => DeferOrRunPendingTask(s, task, stage, didWork)
    case AfterDoWork(did) => CheckKeepRunning(s, DoDelayedWork(did))
    case DoDelayedWork(did) => DoDoDelayedWork(s, did, top)
    case AfterDelayedWork(did) => CheckKeepRunning(s, if did then DoWork else DoIdleWork)
    case DoIdleWork => DoDoIdleWork(s)
    case AfterIdleWork(did) => CheckKeepRunning(s, if did then DoWork else BeforeWait)
    case BeforeWait => DoBeforeWait(s)
    case Waiting(_) => s.(event := false).At(DoWork)
  }

  function Do(s: State, step: Step): State
    requires Enabled(s, step)
  {
    match step
    case Tick(elapsed) => s.(now := s.now + elapsed)
    case Post(thread, closure, runTime, nestable) => DoPost(s, thread, closure, runTime, nestable)
    case Signal(thread) => s.(event := true, signallers := s.signallers - {thread})
    case EnterRun(untilIdle) => s.(frames := s.frames + [Frame(DoWork, untilIdle)])
    case SetNestableTasksAllowed(allowed) =>
      s.(nestableAllowed := allowed, event := s.event || (allowed && !s.nestableAllowed))
    case Quit => s.(frames := s.frames[|s.frames| - 1 := s.Top().(quitReceived := true)])
    case QuitNow => s.(keepRunning := false)
    case FinishTask => DoFinishTask(s)
    case Pump(top) => DoPump(s, top)
  }

  /** Can these steps be taken in turn? */
  ghost predicate Possible(s: State, steps: seq<Step>)
    decreases |steps|
  {
    steps == [] || (Enabled(s, steps[0]) && Possible(Do(s, steps[0]), steps[1..]))
  }

  ghost function After(s: State, steps: seq<Step>): State
    requires Possible(s, steps)
    decreases |steps|
  {
    if steps == [] then s else After(Do(s, steps[0]), steps[1..])
  }
}
