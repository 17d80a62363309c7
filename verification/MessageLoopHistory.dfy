/** Where the posted tasks go: order and conservation over all runs of the message loop. */
module MessageLoopHistory {
  import opened Basics
  import opened PendingTasks
  import opened MessageLoops
  import opened MessageLoopSafety

  // ----------------------------------------------------------------------------------------------
  // Selections of tasks
  // ----------------------------------------------------------------------------------------------

  /** Prompt: an immediate nestable task. Timed: a delayed one. */
  datatype Kind = Prompt | Timed

  predicate IsA(kind: Kind, task: Task) {
    match kind
    case Prompt => task.Immediate() && task.nestable
    case Timed => !task.Immediate()
  }

  ghost function Select(kind: Kind, s: seq<Task>): seq<Task>
    decreases s
  {
    if s == [] then []
    else (if IsA(kind, s[0]) then [s[0]] else []) + Select(kind, s[1..])
  }

  lemma {:induction false} SelectJoin(kind: Kind, a: seq<Task>, b: seq<Task>)
    ensures Select(kind, a + b) == Select(kind, a) + Select(kind, b)
    decreases a
  {
    if a == [] {
      assert a + b == b;
    } else {
      assert (a + b)[1..] == a[1..] + b;
      SelectJoin(kind, a[1..], b);
      Regroup(if IsA(kind, a[0]) then [a[0]] else [], Select(kind, a[1..]), Select(kind, b));
    }
  }

  ghost function Tasks(starts: seq<Start>): (r: seq<Task>)
    ensures |r| == |starts| && forall k :: 0 <= k < |r| ==> r[k] == starts[k].task
  {
    seq(|starts|, k requires 0 <= k < |starts| => starts[k].task)
  }

  ghost function DelayedTasks(d: seq<DelayedTask>): (r: seq<Task>)
    ensures |r| == |d| && forall k :: 0 <= k < |r| ==> r[k] == d[k].task
  {
    seq(|d|, k requires 0 <= k < |d| => d[k].task)
  }

  // ----------------------------------------------------------------------------------------------
  // Places
  // ----------------------------------------------------------------------------------------------

  /** All the places of a task: `fromWork` and `fromDelayed` hold the task that is popped, if any. */
  datatype Places = Places(posted: seq<Task>, incoming: seq<Task>, work: seq<Task>, fromWork: seq<Task>,
                           timed: seq<Task>, delayed: seq<Task>, fromDelayed: seq<Task>,
                           deferred: seq<Task>, started: seq<Task>)
  {
    /** What has not reached the delayed queue or the start of a task yet, oldest first. */
    ghost function Upstream(): seq<Task> { fromWork + work + incoming }
  }

  ghost function InHand(s: State, fromWork: bool): seq<Task> {
    if s.frames != [] && s.Top().pc.Holding? && s.Top().pc.stage.FromWork? == fromWork then [s.Top().pc.task] else []
  }

  ghost function PlacesOf(s: State): Places {
    Places(s.posted, s.incoming, s.work, InHand(s, true), s.timed, DelayedTasks(s.delayed), InHand(s, false),
           s.deferred, Tasks(s.started))
  }

  ghost predicate Numbered(p: Places) {
    forall k :: 0 <= k < |p.posted| ==> p.posted[k].id == k
  }

  /** First in, first out: for the immediate nestable tasks, up to their start. */
  ghost predicate PromptOrder(p: Places) {
    Select(Prompt, p.started) + Select(Prompt, p.Upstream()) == Select(Prompt, p.posted)
  }

  /** First in, first out: for the delayed tasks, up to the delayed queue. */
  ghost predicate TimedOrder(p: Places) {
    p.timed + Select(Timed, p.Upstream()) == Select(Timed, p.posted)
  }

  /** Every posted task is in exactly one place. */
  ghost predicate Conserved(p: Places) {
    multiset(p.posted) ==
      multiset(p.incoming) + multiset(p.work) + multiset(p.fromWork) +
      multiset(p.delayed) + multiset(p.fromDelayed) + multiset(p.deferred) + multiset(p.started)
  }

  ghost predicate History(p: Places) {
    Numbered(p) && PromptOrder(p) && TimedOrder(p) && Conserved(p)
  }

  /** The moves of a task from one place to another. */
  datatype Move =
    | Stay
    | Arrive(task: Task)
    | Swap
    | PopWork
    | PutInDelayed
    | StartFromWork
    | DeferFromWork
    | PopDelayed(i: nat)
    | StartFromDelayed
    | DeferFromDelayed
    | Resume

  ghost predicate CanMove(p: Places, m: Move) {
    match m
    case Stay => true
    case Arrive(task) => task.id == |p.posted|
    case Swap => p.fromWork == [] && p.work == []
    case PopWork => p.fromWork == [] && p.work != []
    case PutInDelayed => |p.fromWork| == 1 && !p.fromWork[0].Immediate()
    case StartFromWork => |p.fromWork| == 1 && p.fromWork[0].Immediate()
    case DeferFromWork => |p.fromWork| == 1 && p.fromWork[0].Immediate() && !p.fromWork[0].nestable
    case PopDelayed(i) => p.fromDelayed == [] && i < |p.delayed|
    case StartFromDelayed => |p.fromDelayed| == 1 && !p.fromDelayed[0].Immediate()
    case DeferFromDelayed => |p.fromDelayed| == 1
    case Resume => p.deferred != [] && !p.deferred[0].nestable
  }

  ghost function DoMove(p: Places, m: Move): Places
    requires CanMove(p, m)
  {
    match m
    case Stay => p
    case Arrive(task) => p.(posted := p.posted + [task], incoming := p.incoming + [task])
    case Swap => p.(work := p.incoming, incoming := [])
    case PopWork => p.(fromWork := [p.work[0]], work := p.work[1..])
    case PutInDelayed => p.(fromWork := [], timed := p.timed + p.fromWork, delayed := p.delayed + p.fromWork)
    case StartFromWork => p.(fromWork := [], started := p.started + p.fromWork)
    case DeferFromWork => p.(fromWork := [], deferred := p.deferred + p.fromWork)
    case PopDelayed(i) => p.(delayed := WithoutAt(p.delayed, i), fromDelayed := [p.delayed[i]])
    case StartFromDelayed => p.(fromDelayed := [], started := p.started + p.fromDelayed)
    case DeferFromDelayed => p.(fromDelayed := [], deferred := p.deferred + p.fromDelayed)
    case Resume => p.(deferred := p.deferred[1..], started := p.started + [p.deferred[0]])
  }

  lemma MoveKeepsNumbers(p: Places, m: Move)
    requires Numbered(p) && CanMove(p, m)
    ensures Numbered(DoMove(p, m))
  {
  }

  lemma FirstAndRest(s: seq<Task>)
    requires s != []
    ensures multiset(s) == multiset{s[0]} + multiset(s[1..])
  {
    assert s == [s[0]] + s[1..];
  }

  lemma LeaveWorkKeepsConserved(p: Places, m: Move)
    requires Conserved(p) && CanMove(p, m) && (m.PutInDelayed? || m.StartFromWork? || m.DeferFromWork?)
    ensures Conserved(DoMove(p, m))
  {
  }

  lemma LeaveDelayedKeepsConserved(p: Places, m: Move)
    requires Conserved(p) && CanMove(p, m) && (m.PopDelayed? || m.StartFromDelayed? || m.DeferFromDelayed?)
    ensures Conserved(DoMove(p, m))
  {
    if m.PopDelayed? { CountWithoutAt(p.delayed, m.i); }
  }

  lemma ArrivalKeepsConserved(p: Places, m: Move)
    requires Conserved(p) && CanMove(p, m) && (m.Arrive? || m.Swap? || m.PopWork?)
    ensures Conserved(DoMove(p, m))
  {
    if m.PopWork? { FirstAndRest(p.work); }
  }

  lemma MoveKeepsConserved(p: Places, m: Move)
    requires Conserved(p) && CanMove(p, m)
    ensures Conserved(DoMove(p, m))
  {
    match m
    case Arrive(_) | Swap | PopWork => ArrivalKeepsConserved(p, m);
    case PutInDelayed | StartFromWork | DeferFromWork => LeaveWorkKeepsConserved(p, m);
    case PopDelayed(_) | StartFromDelayed | DeferFromDelayed => LeaveDelayedKeepsConserved(p, m);
    case Resume => FirstAndRest(p.deferred);
    case _ =>
  }

  /** How a move changes what is upstream, what has been started and what has reached the delayed queue. */
  lemma MoveUpstream(p: Places, m: Move, kind: Kind)
    requires CanMove(p, m)
    ensures var p' := DoMove(p, m);
            if m.Arrive? then
              && Select(kind, p'.Upstream()) == Select(kind, p.Upstream()) + Select(kind, [m.task])
              && Select(kind, p'.posted) == Select(kind, p.posted) + Select(kind, [m.task])
            else if m.PutInDelayed? || m.StartFromWork? || m.DeferFromWork? then
              Select(kind, p.Upstream()) == Select(kind, p.fromWork) + Select(kind, p'.Upstream())
            else p'.Upstream() == p.Upstream()
  {
    var p' := DoMove(p, m);
    match m
    case Arrive(task) =>
      assert p'.Upstream() == p.Upstream() + [task];
      SelectJoin(kind, p.Upstream(), [task]);
      SelectJoin(kind, p.posted, [task]);
    case PutInDelayed | StartFromWork | DeferFromWork =>
      assert p.Upstream() == p.fromWork + p'.Upstream();
      SelectJoin(kind, p.fromWork, p'.Upstream());
    case _ =>
  }

  lemma SelectOne(kind: Kind, t: Task)
    ensures Select(kind, [t]) == if IsA(kind, t) then [t] else []
  {
    assert [t][1..] == [];
  }

  /** A started task that is not prompt leaves the selection as it is. */
  lemma StartSelected(p: Places, t: Task)
    ensures Select(Prompt, p.started + [t]) == Select(Prompt, p.started) + (if IsA(Prompt, t) then [t] else [])
  {
    SelectJoin(Prompt, p.started, [t]);
    SelectOne(Prompt, t);
  }

  lemma ArriveKeepsOrder(p: Places, m: Move)
    requires PromptOrder(p) && TimedOrder(p) && CanMove(p, m) && m.Arrive?
    ensures PromptOrder(DoMove(p, m)) && TimedOrder(DoMove(p, m))
  {
    MoveUpstream(p, m, Prompt);
    MoveUpstream(p, m, Timed);
    Regroup(Select(Prompt, p.started), Select(Prompt, p.Upstream()), Select(Prompt, [m.task]));
    Regroup(p.timed, Select(Timed, p.Upstream()), Select(Timed, [m.task]));
  }

  lemma LeaveWorkKeepsPromptOrder(p: Places, m: Move)
    requires PromptOrder(p) && CanMove(p, m) && (m.PutInDelayed? || m.StartFromWork? || m.DeferFromWork?)
    ensures PromptOrder(DoMove(p, m))
  {
    MoveUpstream(p, m, Prompt);
    assert p.fromWork == [p.fromWork[0]];
    SelectOne(Prompt, p.fromWork[0]);
    StartSelected(p, p.fromWork[0]);
    Regroup(Select(Prompt, p.started), Select(Prompt, p.fromWork), Select(Prompt, DoMove(p, m).Upstream()));
  }

  lemma LeaveWorkKeepsTimedOrder(p: Places, m: Move)
    requires TimedOrder(p) && CanMove(p, m) && (m.PutInDelayed? || m.StartFromWork? || m.DeferFromWork?)
    ensures TimedOrder(DoMove(p, m))
  {
    MoveUpstream(p, m, Timed);
    assert p.fromWork == [p.fromWork[0]];
    SelectOne(Timed, p.fromWork[0]);
    Regroup(p.timed, Select(Timed, p.fromWork), Select(Timed, DoMove(p, m).Upstream()));
  }

  lemma StartOtherKeepsOrder(p: Places, m: Move)
    requires PromptOrder(p) && TimedOrder(p) && CanMove(p, m) && (m.StartFromDelayed? || m.Resume?)
    ensures PromptOrder(DoMove(p, m)) && TimedOrder(DoMove(p, m))
  {
    MoveUpstream(p, m, Prompt);
    var t := if m.StartFromDelayed? then p.fromDelayed[0] else p.deferred[0];
    StartSelected(p, t);
    assert !IsA(Prompt, t);
    StartedOther(p, DoMove(p, m), t);
  }

  /** Only `started` changes of what the two orders speak of, and by a task of another kind. */
  lemma StartedOther(p: Places, p': Places, t: Task)
    requires PromptOrder(p) && TimedOrder(p)
    requires p'.started == p.started + [t] && Select(Prompt, p'.started) == Select(Prompt, p.started)
    requires p'.Upstream() == p.Upstream() && p'.posted == p.posted && p'.timed == p.timed
    ensures PromptOrder(p') && TimedOrder(p')
  {
  }

  lemma MoveKeepsOrder(p: Places, m: Move)
    requires PromptOrder(p) && TimedOrder(p) && CanMove(p, m)
    ensures PromptOrder(DoMove(p, m)) && TimedOrder(DoMove(p, m))
  {
    match m
    case Arrive(_) => ArriveKeepsOrder(p, m);
    case PutInDelayed | StartFromWork | DeferFromWork =>
      LeaveWorkKeepsPromptOrder(p, m);
      LeaveWorkKeepsTimedOrder(p, m);
    case StartFromDelayed | Resume => StartOtherKeepsOrder(p, m);
    case _ => MoveUpstream(p, m, Prompt);
  }

  lemma MoveKeepsHistory(p: Places, m: Move)
    requires History(p) && CanMove(p, m)
    ensures History(DoMove(p, m))
  {
    MoveKeepsNumbers(p, m);
    MoveKeepsConserved(p, m);
    MoveKeepsOrder(p, m);
  }

  // ----------------------------------------------------------------------------------------------
  // Every step of the message loop is one of these moves
  // ----------------------------------------------------------------------------------------------

  ghost function DispatchMove(s: State, task: Task): Move {
    if !task.Immediate() then PutInDelayed
    else if task.nestable || s.Depth() == 1 then StartFromWork
    else DeferFromWork
  }

  ghost function PumpMove(s: State, top: nat): Move
    requires s.frames != []
  {
    match s.Top().pc
    case Reload => if s.work == [] then Swap else Stay
    case Drain => PopWork
    case Holding(task, stage, _) =>
      if stage.FromWork? then DispatchMove(s, task)
      else if task.nestable || s.Depth() == 1 then StartFromDelayed
      else DeferFromDelayed
    case DoDelayedWork(did) =>
      if PumpEnabled(s, top) && DoPump(s, top).delayed != s.delayed then PopDelayed(top) else Stay
    case DoIdleWork => if s.Depth() == 1 && s.deferred != [] then Resume else Stay
    case _ => Stay
  }

  ghost function MoveOf(s: State, step: Step): Move {
    match step
    case Post(_, closure, runTime, nestable) => Arrive(Task(|s.posted|, closure, runTime, nestable))
    case Pump(top) => if s.frames == [] then Stay else PumpMove(s, top)
    case _ => Stay
  }

  /** What `Safe` says about the tasks that are about to move. */
  ghost predicate TasksFit(s: State) {
    && Nesting(s) && HoldingStages(s)
    && (s.frames != [] && s.Top().pc.Holding? && s.Top().pc.stage.FromDelayed? ==> !s.Top().pc.task.Immediate())
    && (s.deferred != [] ==> !s.deferred[0].nestable)
  }

  lemma SafeTasksFit(s: State)
    requires Safe(s)
    ensures TasksFit(s)
  {
    if s.deferred != [] {
      assert s.putOff[|s.resumed|] == s.deferred[0];
    }
  }

  lemma TasksSnoc(starts: seq<Start>, start: Start)
    ensures Tasks(starts + [start]) == Tasks(starts) + [start.task]
  {
  }

  lemma OtherStepMoves(s: State, step: Step)
    requires TasksFit(s) && Enabled(s, step) && !step.Pump?
    ensures CanMove(PlacesOf(s), MoveOf(s, step))
    ensures PlacesOf(Do(s, step)) == DoMove(PlacesOf(s), MoveOf(s, step))
  {
  }

  /** Where no task is in hand, the program point does not matter. */
  lemma AtMoves(s: State, pc: Pc)
    requires s.frames != [] && !s.Top().pc.Holding? && !pc.Holding?
    ensures PlacesOf(s.At(pc)) == PlacesOf(s)
  {
  }

  /** The run around the one that is left is inside a task. */
  lemma CheckMoves(s: State, onward: Pc)
    requires Nesting(s) && s.frames != [] && !s.Top().pc.Holding? && !onward.Holding?
    ensures PlacesOf(CheckKeepRunning(s, onward)) == PlacesOf(s)
  {
    if s.keepRunning { AtMoves(s, onward); }
  }

  lemma DoWorkMoves(s: State, top: nat)
    requires TasksFit(s) && PumpEnabled(s, top) && (s.Top().pc.Reload? || s.Top().pc.Drain?)
    ensures CanMove(PlacesOf(s), PumpMove(s, top))
    ensures PlacesOf(DoPump(s, top)) == DoMove(PlacesOf(s), PumpMove(s, top))
  {
    if s.Top().pc.Drain? { DrainMoves(s); } else { ReloadMoves(s, top); }
  }

  lemma DrainMoves(s: State)
    requires s.frames != [] && s.Top().pc.Drain? && s.work != []
    ensures PlacesOf(s.(work := s.work[1..]).At(Holding(s.work[0], FromWork, false))) == DoMove(PlacesOf(s), PopWork)
  {
  }

  lemma ReloadMoves(s: State, top: nat)
    requires s.frames != [] && s.Top().pc.Reload?
    ensures PlacesOf(DoReload(s)) == DoMove(PlacesOf(s), PumpMove(s, top))
  {
    if s.work != [] { AtMoves(s, Drain); }
    else if s.incoming == [] { AtMoves(s, AfterDoWork(false)); }
    else { AtMoves(s.(work := s.incoming, incoming := []), Drain); }
  }

  lemma DelayedTasksSnoc(d: seq<DelayedTask>, x: DelayedTask)
    ensures DelayedTasks(d + [x]) == DelayedTasks(d) + [x.task]
  {
  }

  lemma AddToDelayedMoves(s: State, task: Task, top: nat)
    requires s.frames != [] && s.Top().pc.Holding? && s.Top().pc.stage.FromWork? && s.Top().pc.task == task
    requires !task.Immediate() && top <= |s.delayed|
    ensures PlacesOf(DispatchWork(s, task, top)) == DoMove(PlacesOf(s), PutInDelayed)
  {
    DelayedTasksSnoc(s.delayed, DelayedTask(task, |s.timed|));
  }

  lemma DispatchMoves(s: State, top: nat)
    requires TasksFit(s) && PumpEnabled(s, top) && s.Top().pc.Holding? && s.Top().pc.stage.FromWork?
    ensures CanMove(PlacesOf(s), PumpMove(s, top))
    ensures PlacesOf(DoPump(s, top)) == DoMove(PlacesOf(s), PumpMove(s, top))
  {
    var t := s.Top().pc.task;
    if t.Immediate() {
      TasksSnoc(s.started, Start(t, s.Depth(), s.nestableAllowed));
    } else {
      AddToDelayedMoves(s, t, top);
    }
  }

  lemma DispatchDelayedMoves(s: State, top: nat)
    requires TasksFit(s) && PumpEnabled(s, top) && s.Top().pc.Holding? && s.Top().pc.stage.FromDelayed?
    ensures CanMove(PlacesOf(s), PumpMove(s, top))
    ensures PlacesOf(DoPump(s, top)) == DoMove(PlacesOf(s), PumpMove(s, top))
  {
    TasksSnoc(s.started, Start(s.Top().pc.task, s.Depth(), s.nestableAllowed));
  }

  lemma DoDelayedWorkMoves(s: State, top: nat)
    requires TasksFit(s) && PumpEnabled(s, top) && s.Top().pc.DoDelayedWork?
    ensures CanMove(PlacesOf(s), PumpMove(s, top))
    ensures PlacesOf(DoPump(s, top)) == DoMove(PlacesOf(s), PumpMove(s, top))
  {
    var t := DoPump(s, top);
    if t.delayed == s.delayed {
      StaysInPlace(s, top);
    } else {
      PopMoves(s, t, top);
    }
  }

  lemma StaysInPlace(s: State, top: nat)
    requires PumpEnabled(s, top) && s.Top().pc.DoDelayedWork? && DoPump(s, top).delayed == s.delayed
    ensures PlacesOf(DoPump(s, top)) == PlacesOf(s)
  {
    if s.nestableAllowed && s.delayed != [] { assert |WithoutAt(s.delayed, top)| != |s.delayed|; }
  }

  lemma PopMoves(s: State, t: State, top: nat)
    requires PumpEnabled(s, top) && s.Top().pc.DoDelayedWork? && t == DoPump(s, top) && t.delayed != s.delayed
    ensures CanMove(PlacesOf(s), PopDelayed(top)) && PlacesOf(t) == DoMove(PlacesOf(s), PopDelayed(top))
  {
    assert t.delayed == WithoutAt(s.delayed, top) && InHand(t, false) == [s.delayed[top].task] && InHand(t, true) == [];
    DelayedTasksWithout(s.delayed, top);
  }

  lemma DelayedTasksWithout(d: seq<DelayedTask>, i: nat)
    requires i < |d|
    ensures DelayedTasks(WithoutAt(d, i)) == WithoutAt(DelayedTasks(d), i)
  {
  }

  lemma DoIdleWorkMoves(s: State, top: nat)
    requires TasksFit(s) && PumpEnabled(s, top) && s.Top().pc.DoIdleWork?
    ensures CanMove(PlacesOf(s), PumpMove(s, top))
    ensures PlacesOf(DoPump(s, top)) == DoMove(PlacesOf(s), PumpMove(s, top))
  {
    if s.deferred != [] {
      TasksSnoc(s.started, Start(s.deferred[0], s.Depth(), s.nestableAllowed));
    }
  }

  lemma PlainPumpMoves(s: State, top: nat)
    requires TasksFit(s) && PumpEnabled(s, top)
    requires match s.Top().pc
             case Reload | Drain | Holding(_, _, _) | DoDelayedWork(_) | DoIdleWork => false
             case _ => true
    ensures CanMove(PlacesOf(s), PumpMove(s, top))
    ensures PlacesOf(DoPump(s, top)) == DoMove(PlacesOf(s), PumpMove(s, top))
  {
    match s.Top().pc
    case DoWork => AtMoves(s, if s.nestableAllowed then Reload else AfterDoWork(false));
    case AfterDoWork(did) => CheckMoves(s, Pc.DoDelayedWork(did));
    case AfterDelayedWork(did) => CheckMoves(s, if did then DoWork else DoIdleWork);
    case AfterIdleWork(did) => CheckMoves(s, if did then DoWork else BeforeWait);
    case BeforeWait => BeforeWaitMoves(s);
    case Waiting(_) => AtMoves(s.(event := false), DoWork);
    case _ =>
  }

  lemma BeforeWaitMoves(s: State)
    requires s.frames != [] && s.Top().pc.BeforeWait?
    ensures PlacesOf(DoBeforeWait(s)) == PlacesOf(s)
  {
    AtMoves(s, Waiting(s.delayedWorkTime));
    AtMoves(s.(delayedWorkTime := 0), DoWork);
  }

  lemma StepMoves(s: State, step: Step)
    requires TasksFit(s) && Enabled(s, step)
    ensures CanMove(PlacesOf(s), MoveOf(s, step))
    ensures PlacesOf(Do(s, step)) == DoMove(PlacesOf(s), MoveOf(s, step))
  {
    if step.Pump? {
      var top := step.top;
      match s.Top().pc
      case Reload | Drain => DoWorkMoves(s, top);
      case Holding(_, stage, _) =>
        if stage.FromWork? { DispatchMoves(s, top); } else { DispatchDelayedMoves(s, top); }
      case DoDelayedWork(_) => DoDelayedWorkMoves(s, top);
      case DoIdleWork => DoIdleWorkMoves(s, top);
      case _ => PlainPumpMoves(s, top);
    } else {
      OtherStepMoves(s, step);
    }
  }

  lemma {:induction false} RunKeepsHistory(s: State, steps: seq<Step>)
    requires Safe(s) && History(PlacesOf(s)) && Possible(s, steps)
    ensures History(PlacesOf(After(s, steps)))
    decreases |steps|
  {
    if steps != [] {
      SafeTasksFit(s);
      StepMoves(s, steps[0]);
      MoveKeepsHistory(PlacesOf(s), MoveOf(s, steps[0]));
      StepKeepsSafe(s, steps[0]);
      RunKeepsHistory(Do(s, steps[0]), steps[1..]);
    }
  }
}
