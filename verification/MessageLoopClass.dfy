/**
  The methods of base/message_loop.cc and base/message_pump_default.cc, up to the calls of client code, in
  place and on queue objects. Each is shown to take steps of the transition system and nothing else.
 */
module MessageLoopClass {
  import opened Basics
  import opened PendingTasks
  import opened MessageLoops

  /** From `s` to `s'` by any number of steps. */
  ghost predicate Steps(s: State, s': State) {
    exists steps :: Possible(s, steps) && After(s, steps) == s'
  }

  lemma {:induction false} Join(s: State, first: seq<Step>, second: seq<Step>)
    requires Possible(s, first) && Possible(After(s, first), second)
    ensures Possible(s, first + second) && After(s, first + second) == After(After(s, first), second)
    decreases |first|
  {
    if first == [] {
      assert first + second == second;
    } else {
      assert (first + second)[1..] == first[1..] + second;
      Join(Do(s, first[0]), first[1..], second);
    }
  }

  lemma NoStep(s: State)
    ensures Steps(s, s)
  {
    assert Possible(s, []) && After(s, []) == s;
  }

  lemma OneMore(s0: State, s: State, step: Step)
    requires Steps(s0, s) && Enabled(s, step)
    ensures Steps(s0, Do(s, step))
  {
    var steps :| Possible(s0, steps) && After(s0, steps) == s;
    assert [step][1..] == [];
    assert Possible(Do(s, step), []);
    assert After(s, [step]) == After(Do(s, step), []);
    Join(s0, steps, [step]);
  }

  /** Steps after which the loop thread is in the same run, and not inside a post of its own. */
  ghost predicate Moved(s: State, s': State) {
    Steps(s, s') && |s'.frames| == |s.frames| && s'.signallers == s.signallers
  }

  lemma OnePump(s: State, top: nat)
    requires PumpEnabled(s, top)
    ensures Steps(s, DoPump(s, top))
  {
    NoStep(s);
    OneMore(s, s, Pump(top));
  }

  lemma Trans(s0: State, s1: State, s2: State)
    requires Steps(s0, s1) && Steps(s1, s2)
    ensures Steps(s0, s2)
  {
    var first :| Possible(s0, first) && After(s0, first) == s1;
    var second :| Possible(s1, second) && After(s1, second) == s2;
    Join(s0, first, second);
  }

  /** What the program keeps of an entry of the delayed queue. */
  datatype Entry = Entry(task: Task, sequenceNum: int)

  predicate EntryLess(a: Entry, b: Entry) {
    if a.task.runTime < b.task.runTime then false
    else if a.task.runTime > b.task.runTime then true
    else Wrap32(a.sequenceNum - b.sequenceNum) > 0
  }

  ghost function EntryOf(d: DelayedTask): Entry {
    Entry(d.task, d.SequenceNum())
  }

  /** What other threads leave alone. */
  ghost predicate SameLoopThread(s: State, s': State) {
    && s'.frames == s.frames && s'.work == s.work && s'.delayed == s.delayed && s'.deferred == s.deferred
    && s'.nestableAllowed == s.nestableAllowed && s'.timed == s.timed && s'.recentTime == s.recentTime
    && s'.keepRunning == s.keepRunning && s'.delayedWorkTime == s.delayedWorkTime
    && (LOOP_THREAD in s'.signallers <==> LOOP_THREAD in s.signallers)
  }

  ghost predicate Represents(entries: seq<Entry>, d: seq<DelayedTask>) {
    |entries| == |d| && forall k :: 0 <= k < |d| ==> entries[k] == EntryOf(d[k])
  }

  /** priority_queue::top, by the comparison the program has. */
  method HeapTop(entries: seq<Entry>, ghost d: seq<DelayedTask>) returns (top: nat)
    requires entries != [] && Represents(entries, d)
    ensures IsTop(d, top)
  {
    top := 0;
    var k := 1;
    while k < |entries|
      invariant 1 <= k <= |entries| && top < k
      invariant forall n :: 0 <= n < k ==> d[top].task.runTime <= d[n].task.runTime
      invariant NarrowQueue(d) ==> forall n :: 0 <= n < k ==> !RunsAfter(d[top], d[n])
    {
      if NarrowQueue(d) { LessIsRunsAfter(d[top], d[k]); }
      if EntryLess(entries[top], entries[k]) {
        top := k;
      }
      k := k + 1;
    }
    MinTimeIsMinimum(d);
    if NarrowQueue(d) {
      forall n | 0 <= n < |d| ensures !Less(d[top], d[n]) {
        LessIsRunsAfter(d[top], d[n]);
      }
    }
  }

  /** The loop thread is at `pc` of its innermost run, and not inside a post of its own. */
  ghost predicate IsAt(s: State, pc: Pc) {
    s.frames != [] && s.Top().pc == pc && LOOP_THREAD !in s.signallers
  }

  // What the methods below do is one step each.

  lemma EnterIsStep(s: State)
    requires IsAt(s, Pc.DoWork)
    ensures Moved(s, s.At(if s.nestableAllowed then Reload else AfterDoWork(false)))
  {
    OnePump(s, 0);
  }

  lemma ReloadIsStep(s: State)
    requires IsAt(s, Reload)
    ensures Moved(s, DoReload(s))
  {
    OnePump(s, 0);
  }

  lemma PopIsStep(s: State)
    requires IsAt(s, Drain) && s.work != []
    ensures Moved(s, s.(work := s.work[1..]).At(Holding(s.work[0], FromWork, false)))
  {
    OnePump(s, 0);
  }

  lemma AddIsStep(s: State, task: Task, top: nat)
    requires IsAt(s, Holding(task, FromWork, false)) && !task.Immediate()
    requires IsTop(MessageLoops.AddToDelayedWorkQueue(s, task), top)
    ensures Moved(s, DispatchWork(s, task, top))
  {
    OnePump(s, top);
  }

  lemma DeferOrRunIsStep(s: State, task: Task, stage: Stage, didWork: bool)
    requires IsAt(s, Holding(task, stage, didWork)) && (stage.FromWork? ==> task.Immediate())
    ensures Moved(s, MessageLoops.DeferOrRunPendingTask(s, task, stage, didWork))
  {
    OnePump(s, 0);
  }

  lemma DelayedWorkIsStep(s: State, didWork: bool, top: nat)
    requires IsAt(s, Pc.DoDelayedWork(didWork)) && (s.nestableAllowed && s.delayed != [] ==> IsTop(s.delayed, top))
    ensures Moved(s, DoDoDelayedWork(s, didWork, top))
  {
    OnePump(s, top);
  }

  lemma IdleWorkIsStep(s: State)
    requires IsAt(s, Pc.DoIdleWork)
    ensures Moved(s, DoDoIdleWork(s))
  {
    OnePump(s, 0);
  }

  lemma CheckIsStep(s: State, onward: Pc)
    requires s.frames != [] && IsAt(s, s.Top().pc)
    requires match s.Top().pc
             case AfterDoWork(did) => onward == Pc.DoDelayedWork(did)
             case AfterDelayedWork(did) => onward == if did then Pc.DoWork else Pc.DoIdleWork
             case AfterIdleWork(did) => onward == if did then Pc.DoWork else BeforeWait
             case _ => false
    ensures Steps(s, CheckKeepRunning(s, onward)) && CheckKeepRunning(s, onward).signallers == s.signallers
  {
    OnePump(s, 0);
  }

  lemma WaitIsStep(s: State)
    requires IsAt(s, BeforeWait)
    ensures Moved(s, DoBeforeWait(s))
  {
    OnePump(s, 0);
  }

  lemma WakeIsStep(s: State)
    requires s.frames != [] && s.Top().pc.Waiting? && PumpEnabled(s, 0)
    ensures Moved(s, s.(event := false).At(Pc.DoWork))
  {
    OnePump(s, 0);
  }

  /** Where the pump's loop has come when client code, another thread or the clock has to go on. */
  datatype Outcome = TaskStarted | RunLeft | NextRound | Blocked(until: nat)

  ghost predicate EndsAs(s: State, outcome: Outcome, depth: nat) {
    match outcome
    case TaskStarted => |s.frames| == depth && depth > 0 && IsAt(s, s.Top().pc) && s.Top().pc.InTask?
    case RunLeft => |s.frames| == depth - 1 && s.keepRunning
    case NextRound => |s.frames| == depth && IsAt(s, Pc.DoWork)
    case Blocked(until) => |s.frames| == depth && IsAt(s, Waiting(until)) && until == s.delayedWorkTime
  }

  lemma DeferOrRunEnds(s: State, task: Task, didWork: bool)
    requires IsAt(s, Holding(task, FromDelayed, didWork))
    ensures var s' := MessageLoops.DeferOrRunPendingTask(s, task, FromDelayed, didWork);
            && |s'.frames| == |s.frames|
            && if task.nestable || s.Depth() == 1 then IsAt(s', InTask(task, FromDelayed))
               else IsAt(s', AfterDelayedWork(didWork))
  {
  }

  /** Where DoDelayedWork goes on from. */
  lemma DueEnds(s: State, didWork: bool, top: nat)
    requires IsAt(s, Pc.DoDelayedWork(didWork)) && s.nestableAllowed && top < |s.delayed|
    ensures var s', task := DoDoDelayedWork(s, didWork, top), s.delayed[top].task;
            && |s'.frames| == |s.frames|
            && if task.runTime <= s.recentTime || task.runTime <= s.now
               then IsAt(s', Holding(task, FromDelayed, didWork))
               else IsAt(s', AfterDelayedWork(didWork))
  {
  }

  /** What DoDelayedWork changes when tasks are allowed and there are delayed ones. */
  lemma DueFields(s: State, didWork: bool, top: nat)
    requires s.frames != [] && s.nestableAllowed && top < |s.delayed|
    ensures var s', task := DoDoDelayedWork(s, didWork, top), s.delayed[top].task;
            var rest := WithoutAt(s.delayed, top);
            var due := task.runTime <= s'.recentTime;
            && s'.recentTime == (if task.runTime > s.recentTime then s.now else s.recentTime)
            && s'.delayed == (if due then rest else s.delayed)
            && s'.delayedWorkTime == (if !due then task.runTime
                                      else if rest != [] then MinTime(rest) else s.delayedWorkTime)
            && s'.incoming == s.incoming && s'.work == s.work && s'.deferred == s.deferred
            && s'.timed == s.timed && s'.posted == s.posted && s'.now == s.now
            && s'.nestableAllowed == s.nestableAllowed && s'.keepRunning == s.keepRunning && s'.event == s.event
            && Quits(s'.frames) == Quits(s.frames)
  {
  }

  /** quit_received of each run. */
  ghost function Quits(frames: seq<Frame>): (r: seq<bool>)
    ensures |r| == |frames|
  {
    if frames == [] then [] else Quits(frames[..|frames| - 1]) + [frames[|frames| - 1].quitReceived]
  }

  class MessageLoop {
    const incomingQueue: TaskQueue
    const workQueue: TaskQueue
    const deferredNonNestableWorkQueue: TaskQueue
    var delayedWorkQueue: seq<Entry>
    var nextSequenceNum: int
    var nestableTasksAllowed: bool
    var recentTime: nat
    // quit_received of each AutoRunState, the innermost last
    var states: seq<bool>
    // of MessagePumpDefault
    var keepRunning: bool
    var event: bool
    var delayedWorkTime: nat
    // what TimeTicks::Now() would say
    var clock: nat
    // numbers the tasks in the order of their posting
    var posts: nat
    // the state of the transition system this object is in
    ghost var s: State

    ghost predicate Valid()
      reads this, incomingQueue, workQueue, deferredNonNestableWorkQueue
    {
      && incomingQueue != workQueue && workQueue != deferredNonNestableWorkQueue
      && incomingQueue != deferredNonNestableWorkQueue
      && incomingQueue.c == s.incoming && workQueue.c == s.work && deferredNonNestableWorkQueue.c == s.deferred
      && Represents(delayedWorkQueue, s.delayed)
      && nextSequenceNum == Wrap32(|s.timed|) && posts == |s.posted|
      && nestableTasksAllowed == s.nestableAllowed && recentTime == s.recentTime
      && states == Quits(s.frames)
      && keepRunning == s.keepRunning && event == s.event && delayedWorkTime == s.delayedWorkTime && clock == s.now
    }

    constructor ()
      ensures Valid() && s == INIT
    {
      incomingQueue := new TaskQueue();
      workQueue := new TaskQueue();
      deferredNonNestableWorkQueue := new TaskQueue();
      delayedWorkQueue, nextSequenceNum, nestableTasksAllowed, recentTime := [], 0, true, 0;
      states, keepRunning, event, delayedWorkTime, posts, clock := [], true, false, 0, 0, 0;
      s := INIT;
    }

    /** The other threads have had their turn: whatever they did, it was steps of theirs. */
    method OtherThreads()
      requires Valid()
      modifies this, incomingQueue
      ensures Valid() && Steps(old(s), s) && SameLoopThread(old(s), s)
    {
      NoStep(s);
    }

    /** AddToIncomingQueue up to the end of the lock; the result says whether ScheduleWork follows. */
    method AddToIncomingQueue(thread: int, closure: nat, runTime: nat, nestable: bool) returns (schedule: bool)
      requires Valid() && Enabled(s, Post(thread, closure, runTime, nestable))
      modifies this, incomingQueue
      ensures Valid() && s == Do(old(s), Post(thread, closure, runTime, nestable))
      ensures schedule == (thread in s.signallers)
    {
      schedule := incomingQueue.c == [];
      incomingQueue.Push(Task(posts, closure, runTime, nestable));
      posts := posts + 1;
      s := Do(s, Post(thread, closure, runTime, nestable));
    }

    method SetNestableTasksAllowed(allowed: bool)
      requires Valid() && Enabled(s, Step.SetNestableTasksAllowed(allowed))
      modifies this
      ensures Valid() && s == Do(old(s), Step.SetNestableTasksAllowed(allowed))
    {
      s := Do(s, Step.SetNestableTasksAllowed(allowed));
      if nestableTasksAllowed != allowed {
        nestableTasksAllowed := allowed;
        if nestableTasksAllowed {
          event := true;
        }
      }
    }

    /** What holds all the time between the start of a delegate method in state `s0` and its end. */
    ghost predicate Since(s0: State)
      reads this, incomingQueue, workQueue, deferredNonNestableWorkQueue
    {
      Valid() && Steps(s0, s) && |s.frames| == |s0.frames|
    }

    method ReloadWorkQueue()
      requires Valid() && IsAt(s, Reload)
      modifies incomingQueue, workQueue, this`s
      ensures Valid() && s == DoReload(old(s))
    {
      s := DoReload(s);
      if workQueue.c != [] {
        return;
      }
      if incomingQueue.c == [] {
        return;
      }
      incomingQueue.Swap(workQueue);
    }

    method PopOldest() returns (task: Task)
      requires Valid() && IsAt(s, Drain) && s.work != []
      modifies workQueue, this`s
      ensures Valid() && task == old(s).work[0]
      ensures s == old(s).(work := old(s).work[1..]).At(Holding(task, FromWork, false))
    {
      task := workQueue.Pop();
      s := s.(work := s.work[1..]).At(Holding(task, FromWork, false));
    }

    /** The delayed queue gets the task with the next sequence number; the pump hears of a new top. */
    method AddToDelayedWorkQueue(task: Task) returns (ghost top: nat)
      requires Valid() && IsAt(s, Holding(task, FromWork, false)) && !task.Immediate()
      modifies this`delayedWorkQueue, this`nextSequenceNum, this`delayedWorkTime, this`s
      ensures Valid() && IsTop(MessageLoops.AddToDelayedWorkQueue(old(s), task), top)
      ensures s == DispatchWork(old(s), task, top)
    {
      var t := PushDelayed(task);
      top := t;
      ghost var queued := DispatchWork(s, task, top);
      Reschedule(t, task);
      s := queued;
    }

    /** The pump is told of the run time if the top has an equal closure. */
    method Reschedule(t: nat, task: Task)
      requires t < |delayedWorkQueue|
      modifies this`delayedWorkTime
      ensures delayedWorkTime ==
                if delayedWorkQueue[t].task.closure == task.closure then task.runTime else old(delayedWorkTime)
    {
      if delayedWorkQueue[t].task.closure == task.closure {
        delayedWorkTime := task.runTime;
      }
    }

    /** The push into the priority queue, and the top it has then. */
    method PushDelayed(task: Task) returns (top: nat)
      requires Represents(delayedWorkQueue, s.delayed) && nextSequenceNum == Wrap32(|s.timed|)
      modifies this`delayedWorkQueue, this`nextSequenceNum
      ensures Represents(delayedWorkQueue, MessageLoops.AddToDelayedWorkQueue(s, task))
      ensures nextSequenceNum == Wrap32(|s.timed| + 1)
      ensures IsTop(MessageLoops.AddToDelayedWorkQueue(s, task), top)
    {
      delayedWorkQueue := delayedWorkQueue + [Entry(task, nextSequenceNum)];
      WrapNext(|s.timed|);
      nextSequenceNum := Wrap32(nextSequenceNum + 1);
      top := HeapTop(delayedWorkQueue, MessageLoops.AddToDelayedWorkQueue(s, task));
    }

    method DeferOrRunPendingTask(task: Task, ghost stage: Stage, ghost didWork: bool) returns (ran: bool)
      requires Valid() && s.frames != []
      modifies this`nestableTasksAllowed, this`s, deferredNonNestableWorkQueue
      ensures Valid() && s == MessageLoops.DeferOrRunPendingTask(old(s), task, stage, didWork)
      ensures ran == (task.nestable || old(s).Depth() == 1)
    {
      s := MessageLoops.DeferOrRunPendingTask(s, task, stage, didWork);
      if task.nestable || |states| == 1 {
        nestableTasksAllowed := false;
        return true;
      }
      deferredNonNestableWorkQueue.Push(task);
      return false;
    }

    /** RunTask after the call of the task. */
    method EndTask()
      requires Valid() && Enabled(s, FinishTask)
      modifies this`nestableTasksAllowed, this`s
      ensures Valid() && s == DoFinishTask(old(s))
    {
      nestableTasksAllowed := true;
      s := DoFinishTask(s);
    }

    /** One round of DoWork's inner loop: the oldest task is put into the delayed queue, put off or started. */
    method DispatchOldest() returns (ran: bool)
      requires Valid() && IsAt(s, Drain) && s.work != []
      modifies this, workQueue, deferredNonNestableWorkQueue
      ensures Since(old(s)) && s.incoming == old(s.incoming) && s.work == old(s.work)[1..]
      ensures if ran then s.frames != [] && IsAt(s, s.Top().pc) && s.Top().pc.InTask? && s.Top().pc.stage.FromWork?
              else IsAt(s, NextInDoWork(s))
    {
      ghost var s0 := s;
      PopIsStep(s);
      var task := PopOldest();
      ghost var s1 := s;
      if !task.Immediate() {
        ghost var top := AddToDelayedWorkQueue(task);
        AddIsStep(s1, task, top);
        ran := false;
      } else {
        DeferOrRunIsStep(s, task, FromWork, false);
        ran := DeferOrRunPendingTask(task, FromWork, false);
      }
      Trans(s0, s1, s);
    }

    /** DoWork's inner loop. */
    method DrainWorkQueue() returns (didWork: bool)
      requires Valid() && IsAt(s, Drain) && s.work != []
      modifies this, workQueue, deferredNonNestableWorkQueue
      ensures Since(old(s)) && s.incoming == old(s.incoming)
      ensures if didWork then s.frames != [] && IsAt(s, s.Top().pc) && s.Top().pc.InTask? && s.Top().pc.stage.FromWork?
              else IsAt(s, Reload) && s.work == []
    {
      ghost var s0 := s;
      NoStep(s);
      var more := true;
      while more
        invariant Since(s0) && s.incoming == s0.incoming
        invariant if more then IsAt(s, Drain) && s.work != [] else IsAt(s, Reload) && s.work == []
        decreases |s.work|
      {
        ghost var before := s;
        didWork := DispatchOldest();
        Trans(s0, before, s);
        if didWork {
          return true;
        }
        more := workQueue.c != [];
      }
      return false;
    }

    /** ReloadWorkQueue, before which other threads may have had a turn. */
    method TurnAndReload(turn: bool)
      requires Valid() && IsAt(s, Reload)
      modifies this, incomingQueue, workQueue
      ensures Since(old(s))
      ensures if s.work == [] then IsAt(s, AfterDoWork(false)) else IsAt(s, Drain)
      ensures !turn ==> |s.incoming| + |s.work| == old(|s.incoming| + |s.work|)
    {
      ghost var s0 := s;
      NoStep(s);
      if turn {
        OtherThreads();
      }
      ghost var s1 := s;
      ReloadIsStep(s);
      ReloadWorkQueue();
      Trans(s0, s1, s);
    }

    /** DoWork up to the call of the task it runs, if any; other threads get `turns` turns meanwhile. */
    method DoWork(turns: nat) returns (didWork: bool)
      requires Valid() && IsAt(s, Pc.DoWork)
      modifies this, incomingQueue, workQueue, deferredNonNestableWorkQueue
      ensures Since(old(s))
      ensures if didWork then s.frames != [] && IsAt(s, s.Top().pc) && s.Top().pc.InTask? && s.Top().pc.stage.FromWork?
              else IsAt(s, AfterDoWork(false))
    {
      ghost var s0 := s;
      EnterIsStep(s);
      s := s.At(if nestableTasksAllowed then Reload else AfterDoWork(false));
      if !nestableTasksAllowed {
        return false;
      }
      var left: nat := turns;
      while true
        invariant Since(s0) && IsAt(s, Reload)
        decreases left, |s.incoming| + |s.work|
      {
        ghost var before := s;
        TurnAndReload(left > 0);
        Trans(s0, before, s);
        if workQueue.c == [] {
          break;
        }
        before := s;
        didWork := DrainWorkQueue();
        Trans(s0, before, s);
        if didWork {
          return true;
        }
        left := if left > 0 then left - 1 else 0;
      }
      return false;
    }

    /** The pop from the priority queue, and the pump's deadline if something is left in it. */
    method PopDelayed(top: nat, ghost d: seq<DelayedTask>)
      requires Represents(delayedWorkQueue, d) && top < |d|
      modifies this`delayedWorkQueue, this`delayedWorkTime
      ensures Represents(delayedWorkQueue, WithoutAt(d, top))
      ensures delayedWorkTime == if WithoutAt(d, top) != [] then MinTime(WithoutAt(d, top)) else old(delayedWorkTime)
    {
      delayedWorkQueue := WithoutAt(delayedWorkQueue, top);
      if delayedWorkQueue != [] {
        var next := HeapTop(delayedWorkQueue, WithoutAt(d, top));
        delayedWorkTime := delayedWorkQueue[next].task.runTime;
      }
    }

    /** DoDelayedWork up to DeferOrRunPendingTask: the task that is due, if there is one. */
    method PopDue(now: nat, ghost didWork: bool) returns (found: bool, task: Task, ghost top: nat)
      requires Valid() && s.frames != [] && now == s.now && nestableTasksAllowed && delayedWorkQueue != []
      modifies this`recentTime, this`delayedWorkTime, this`delayedWorkQueue, this`s
      ensures Valid() && IsTop(old(s).delayed, top) && task == old(s).delayed[top].task
      ensures s == DoDoDelayedWork(old(s), didWork, top)
      ensures found == (task.runTime <= old(s).recentTime || task.runTime <= now)
    {
      var t := HeapTop(delayedWorkQueue, s.delayed);
      top := t;
      task := delayedWorkQueue[t].task;
      DueFields(s, didWork, t);
      found := TakeDue(t, task, now, s.delayed);
      s := DoDoDelayedWork(s, didWork, top);
    }

    /** Takes the top out of the queue if it is due; else the pump is told when it will be. */
    method TakeDue(t: nat, task: Task, now: nat, ghost d: seq<DelayedTask>) returns (due: bool)
      requires Represents(delayedWorkQueue, d) && t < |d| && d[t].task == task
      modifies this`recentTime, this`delayedWorkTime, this`delayedWorkQueue
      ensures recentTime == if task.runTime > old(recentTime) then now else old(recentTime)
      ensures due == (task.runTime <= recentTime)
      ensures Represents(delayedWorkQueue, if due then WithoutAt(d, t) else d)
      ensures delayedWorkTime ==
                if !due then task.runTime
                else if WithoutAt(d, t) != [] then MinTime(WithoutAt(d, t))
                else old(delayedWorkTime)
    {
      due := IsDue(task, now);
      if due {
        PopDelayed(t, d);
      } else {
        delayedWorkTime := task.runTime;
      }
    }

    /** The clock is read only if the last reading does not do. */
    method IsDue(task: Task, now: nat) returns (due: bool)
      modifies this`recentTime
      ensures recentTime == if task.runTime > old(recentTime) then now else old(recentTime)
      ensures due == (task.runTime <= recentTime)
    {
      if task.runTime > recentTime {
        recentTime := now;
      }
      due := task.runTime <= recentTime;
    }

    /** DoDelayedWork up to the call of the task it runs, if any. `didWork` is what DoWork returned. */
    method DoDelayedWork(now: nat, ghost didWork: bool) returns (ran: bool)
      requires Valid() && IsAt(s, Pc.DoDelayedWork(didWork)) && now == s.now
      modifies this, deferredNonNestableWorkQueue
      ensures Since(old(s))
      ensures if ran then s.frames != [] && IsAt(s, s.Top().pc) && s.Top().pc.InTask? && s.Top().pc.stage.FromDelayed?
              else IsAt(s, AfterDelayedWork(didWork))
    {
      if !nestableTasksAllowed || delayedWorkQueue == [] {
        recentTime, delayedWorkTime := 0, 0;
        DelayedWorkIsStep(s, didWork, 0);
        s := DoDoDelayedWork(s, didWork, 0);
        return false;
      }
      ran := DoDueWork(now, didWork);
    }

    /** DoDelayedWork when tasks are allowed and there are delayed ones. */
    method DoDueWork(now: nat, ghost didWork: bool) returns (ran: bool)
      requires Valid() && IsAt(s, Pc.DoDelayedWork(didWork)) && now == s.now
      requires nestableTasksAllowed && delayedWorkQueue != []
      modifies this, deferredNonNestableWorkQueue
      ensures Since(old(s))
      ensures if ran then s.frames != [] && IsAt(s, s.Top().pc) && s.Top().pc.InTask? && s.Top().pc.stage.FromDelayed?
              else IsAt(s, AfterDelayedWork(didWork))
    {
      ghost var s0, top := s, 0;
      var found, task;
      found, task, top := PopDue(now, didWork);
      DelayedWorkIsStep(s0, didWork, top);
      DueEnds(s0, didWork, top);
      if !found {
        return false;
      }
      ghost var s1 := s;
      DeferOrRunEnds(s, task, didWork);
      DeferOrRunIsStep(s, task, FromDelayed, didWork);
      ran := DeferOrRunPendingTask(task, FromDelayed, didWork);
      Trans(s0, s1, s);
    }

    /** DoIdleWork up to the call of the task it runs, if any, with ProcessNextDelayedNonNestableTask in it. */
    method DoIdleWork() returns (ran: bool)
      requires Valid() && s.frames != []
      modifies this`keepRunning, this`nestableTasksAllowed, this`s, deferredNonNestableWorkQueue
      ensures Valid() && s == DoDoIdleWork(old(s))
      ensures ran == (old(s).Depth() == 1 && old(s).deferred != [])
    {
      s := DoDoIdleWork(s);
      if |states| == 1 && deferredNonNestableWorkQueue.c != [] {
        var task := deferredNonNestableWorkQueue.Pop();
        nestableTasksAllowed := false;
        return true;
      }
      if states[|states| - 1] {
        keepRunning := false;
      }
      return false;
    }

    // --------------------------------------------------------------------------------------------
    // MessagePumpDefault::Run, from one point where the rest of the world can act to the next
    // --------------------------------------------------------------------------------------------

    /** A new AutoRunState, and the call of the pump's Run. */
    method EnterRun(untilIdle: bool)
      requires Valid() && Enabled(s, Step.EnterRun(untilIdle))
      modifies this`states, this`s
      ensures Valid() && s == Do(old(s), Step.EnterRun(untilIdle))
    {
      states := states + [untilIdle];
      s := Do(s, Step.EnterRun(untilIdle));
    }

    /** The test after each delegate method; on the way out, the flag is set again and the AutoRunState goes. */
    method KeepRunning(ghost onward: Pc) returns (on: bool)
      requires Valid() && s.frames != []
      modifies this`keepRunning, this`states, this`s
      ensures Valid() && on == old(keepRunning) && s == CheckKeepRunning(old(s), onward)
    {
      s := CheckKeepRunning(s, onward);
      on := keepRunning;
      if !on {
        keepRunning := true;
        states := states[..|states| - 1];
      }
    }

    /** One round of the loop, while other threads get `turns` turns in DoWork. */
    method RunRound(turns: nat) returns (outcome: Outcome)
      requires Valid() && IsAt(s, Pc.DoWork)
      modifies this, incomingQueue, workQueue, deferredNonNestableWorkQueue
      ensures Valid() && Steps(old(s), s) && EndsAs(s, outcome, |old(s).frames|)
    {
      ghost var s0 := s;
      var didWork := DoWork(turns);
      if didWork {
        return TaskStarted;
      }
      ghost var s1 := s;
      outcome := RunAfterDoWork(false);
      Trans(s0, s1, s);
    }

    method RunAfterDoWork(didWork: bool) returns (outcome: Outcome)
      requires Valid() && IsAt(s, AfterDoWork(didWork))
      modifies this, deferredNonNestableWorkQueue
      ensures Valid() && Steps(old(s), s) && EndsAs(s, outcome, |old(s).frames|)
    {
      ghost var s0 := s;
      CheckIsStep(s, Pc.DoDelayedWork(didWork));
      var on := KeepRunning(Pc.DoDelayedWork(didWork));
      if !on {
        return RunLeft;
      }
      ghost var s1 := s;
      var ran := DoDelayedWork(clock, didWork);
      Trans(s0, s1, s);
      if ran {
        return TaskStarted;
      }
      ghost var s2 := s;
      outcome := RunAfterDelayedWork(didWork);
      Trans(s0, s2, s);
    }

    method RunAfterDelayedWork(didWork: bool) returns (outcome: Outcome)
      requires Valid() && IsAt(s, AfterDelayedWork(didWork))
      modifies this, deferredNonNestableWorkQueue
      ensures Valid() && Steps(old(s), s) && EndsAs(s, outcome, |old(s).frames|)
    {
      ghost var s0 := s;
      ghost var onward := if didWork then Pc.DoWork else Pc.DoIdleWork;
      CheckIsStep(s, onward);
      var on := KeepRunning(onward);
      if !on {
        return RunLeft;
      }
      if didWork {
        return NextRound;
      }
      ghost var s1 := s;
      IdleWorkIsStep(s);
      var ran := DoIdleWork();
      Trans(s0, s1, s);
      if ran {
        return TaskStarted;
      }
      ghost var s2 := s;
      outcome := RunAfterIdleWork(false);
      Trans(s0, s2, s);
    }

    method RunAfterIdleWork(didWork: bool) returns (outcome: Outcome)
      requires Valid() && IsAt(s, AfterIdleWork(didWork))
      modifies this`keepRunning, this`states, this`delayedWorkTime, this`s
      ensures Valid() && Steps(old(s), s) && EndsAs(s, outcome, |old(s).frames|)
    {
      ghost var s0 := s;
      ghost var onward := if didWork then Pc.DoWork else BeforeWait;
      CheckIsStep(s, onward);
      var on := KeepRunning(onward);
      if !on {
        return RunLeft;
      }
      if didWork {
        return NextRound;
      }
      ghost var s1 := s;
      outcome := Wait();
      Trans(s0, s1, s);
    }

    /** Waits without a limit, or up to the deadline if that is still to come. */
    method Wait() returns (outcome: Outcome)
      requires Valid() && IsAt(s, BeforeWait)
      modifies this`delayedWorkTime, this`s
      ensures Valid() && Steps(old(s), s) && EndsAs(s, outcome, |old(s).frames|)
    {
      WaitIsStep(s);
      s := DoBeforeWait(s);
      if delayedWorkTime == 0 {
        return Blocked(0);
      }
      if delayedWorkTime > clock {
        return Blocked(delayedWorkTime);
      }
      delayedWorkTime := 0;
      return NextRound;
    }

    /** The wait is over, because the auto-reset event was signalled or the time has come. */
    method WakeUp()
      requires Valid() && s.frames != [] && s.Top().pc.Waiting? && PumpEnabled(s, 0)
      modifies this`event, this`s
      ensures Valid() && Steps(old(s), s) && IsAt(s, Pc.DoWork) && !event
    {
      WakeIsStep(s);
      event := false;
      s := s.(event := false).At(Pc.DoWork);
    }
  }

  lemma WrapNext(n: int)
    ensures Wrap32(Wrap32(n) + 1) == Wrap32(n + 1)
  {
    WrapOfDifference(n, -1);
  }
}
