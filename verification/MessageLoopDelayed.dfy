/**
  The order in which delayed tasks start: of two of them, the one posted first and due no later is
  the first to start, as long as the sequence numbers in the queue span less than 2^31.
 */
module MessageLoopDelayed {
  import opened Basics
  import opened PendingTasks
  import opened MessageLoops
  import opened MessageLoopSafety
  import opened MessageLoopHistory

  /** The part of the state this is about; `timed[k]` is the task with order `k`. */
  datatype Timeline = Timeline(timed: seq<Task>, delayed: seq<DelayedTask>, hand: seq<Task>,
                               putOff: seq<Task>, started: seq<Task>)
  {
    ghost predicate Queued(a: nat) {
      exists k :: 0 <= k < |delayed| && delayed[k].order == a
    }

    ghost predicate Taken(t: Task) {
      t in hand || t in putOff || t in started
    }

    /** `t` has been taken out of the queue, where it had the order `b`. */
    ghost predicate Gone(t: Task, b: nat) {
      b < |timed| && timed[b] == t && !Queued(b)
    }
  }

  ghost function TimelineOf(s: State): Timeline {
    Timeline(s.timed, s.delayed, InHand(s, false), s.putOff, Tasks(s.started))
  }

  ghost predicate Distinct(q: Timeline) {
    && (forall a, b :: 0 <= a < b < |q.timed| ==> q.timed[a] != q.timed[b])
    && (forall a :: 0 <= a < |q.timed| ==> !q.timed[a].Immediate())
  }

  ghost predicate Entries(q: Timeline) {
    && (forall k :: 0 <= k < |q.delayed| ==>
          q.delayed[k].order < |q.timed| && q.timed[q.delayed[k].order] == q.delayed[k].task)
    && (forall j, k :: 0 <= j < k < |q.delayed| ==> q.delayed[j].order != q.delayed[k].order)
  }

  ghost predicate Accounted(q: Timeline) {
    && (forall a :: 0 <= a < |q.timed| && !q.Queued(a) ==> q.Taken(q.timed[a]))
    && (forall t :: q.Taken(t) && !t.Immediate() ==> exists b: nat :: q.Gone(t, b))
    && |q.hand| <= 1
    && (forall k :: 0 <= k < |q.putOff| ==> !q.putOff[k].nestable)
  }

  /** Whoever was put into the queue first and is due no later leaves it first. */
  ghost predicate LeaveInOrder(q: Timeline) {
    forall a, b :: 0 <= a < b < |q.timed| && q.timed[a].runTime <= q.timed[b].runTime && !q.Queued(b) ==> !q.Queued(a)
  }

  /** ... and, if it is nestable, starts first. */
  ghost predicate StartInOrder(q: Timeline) {
    forall j, a, b :: 0 <= j < |q.started| && 0 <= a < b < |q.timed| && q.started[j] == q.timed[b] &&
                      q.timed[a].nestable && q.timed[a].runTime <= q.timed[b].runTime ==>
      q.timed[a] in q.started[..j]
  }

  ghost predicate Ordered(q: Timeline) {
    Entries(q) && Accounted(q) && LeaveInOrder(q) && StartInOrder(q)
  }

  lemma PutKeepsOrdered(q: Timeline, t: Task)
    requires Ordered(q) && !t.Immediate()
    requires Distinct(q.(timed := q.timed + [t]))
    ensures Ordered(q.(timed := q.timed + [t], delayed := q.delayed + [DelayedTask(t, |q.timed|)]))
  {
    var q' := q.(timed := q.timed + [t], delayed := q.delayed + [DelayedTask(t, |q.timed|)]);
    PutQueued(q, t);
    forall u | q'.Taken(u) && !u.Immediate() ensures exists b: nat :: q'.Gone(u, b) {
      var b: nat :| q.Gone(u, b);
      assert q'.Gone(u, b);
    }
    forall j, a, b | 0 <= j < |q'.started| && 0 <= a < b < |q'.timed| && q'.started[j] == q'.timed[b] &&
                     q'.timed[a].nestable && q'.timed[a].runTime <= q'.timed[b].runTime
      ensures q'.timed[a] in q'.started[..j]
    {
      var u := q.started[j];
      assert q.Taken(u);
      var c: nat :| q.Gone(u, c);
      assert q'.timed[c] == q'.timed[b];
    }
  }

  lemma PutQueued(q: Timeline, t: Task)
    requires Entries(q)
    ensures var q' := q.(timed := q.timed + [t], delayed := q.delayed + [DelayedTask(t, |q.timed|)]);
            forall a: nat :: q'.Queued(a) <==> q.Queued(a) || a == |q.timed|
  {
    var q' := q.(timed := q.timed + [t], delayed := q.delayed + [DelayedTask(t, |q.timed|)]);
    forall a: nat ensures q'.Queued(a) <==> q.Queued(a) || a == |q.timed| {
      if k :| 0 <= k < |q.delayed| && q.delayed[k].order == a { assert q'.delayed[k].order == a; }
      assert q'.delayed[|q.delayed|].order == |q.timed|;
    }
  }

  lemma PopQueued(q: Timeline, top: nat)
    requires Entries(q) && top < |q.delayed|
    ensures var q' := q.(delayed := WithoutAt(q.delayed, top), hand := [q.delayed[top].task]);
            forall a: nat :: q'.Queued(a) <==> q.Queued(a) && a != q.delayed[top].order
  {
    var q' := q.(delayed := WithoutAt(q.delayed, top), hand := [q.delayed[top].task]);
    forall a: nat ensures q'.Queued(a) <==> q.Queued(a) && a != q.delayed[top].order {
      if k :| 0 <= k < |q.delayed| && q.delayed[k].order == a && k != top {
        var k' := if k < top then k else k - 1;
        assert q'.delayed[k'].order == a;
      }
      if k :| 0 <= k < |q'.delayed| && q'.delayed[k].order == a {
        var k' := if k < top then k else k + 1;
        assert q.delayed[k'].order == a;
      }
    }
  }

  lemma PopKeepsEntries(q: Timeline, top: nat)
    requires Entries(q) && top < |q.delayed|
    ensures Entries(q.(delayed := WithoutAt(q.delayed, top), hand := [q.delayed[top].task]))
  {
    var rest := WithoutAt(q.delayed, top);
    assert forall k :: 0 <= k < |rest| ==> rest[k] == q.delayed[if k < top then k else k + 1];
  }

  /** The heart of it: the top of the heap has nobody before it in the order of posting and run time. */
  lemma PopKeepsOrdered(q: Timeline, top: nat)
    requires Ordered(q) && q.hand == [] && IsTop(q.delayed, top) && NarrowQueue(q.delayed)
    ensures Ordered(q.(delayed := WithoutAt(q.delayed, top), hand := [q.delayed[top].task]))
  {
    var q' := q.(delayed := WithoutAt(q.delayed, top), hand := [q.delayed[top].task]);
    var entry := q.delayed[top];
    PopQueued(q, top);
    PopKeepsEntries(q, top);
    forall a, b | 0 <= a < b < |q.timed| && q.timed[a].runTime <= q.timed[b].runTime && !q'.Queued(b)
      ensures !q'.Queued(a)
    {
      if q.Queued(a) && b == entry.order {
        var k :| 0 <= k < |q.delayed| && q.delayed[k].order == a;
        LessIsRunsAfter(entry, q.delayed[k]);
        assert false;
      }
    }
    assert q'.Gone(entry.task, entry.order);
    forall u | q'.Taken(u) && !u.Immediate() ensures exists b: nat :: q'.Gone(u, b) {
      if u != entry.task {
        var b: nat :| q.Gone(u, b);
        assert q'.Gone(u, b);
      }
    }
  }

  /** A task starts that is either immediate or was taken out of the delayed queue before. */
  lemma StartKeepsOrdered(q: Timeline, t: Task)
    requires Ordered(q) && Distinct(q)
    requires q.hand == [t] || (q.hand == [] && (t.Immediate() || t in q.putOff))
    ensures Ordered(q.(started := q.started + [t], hand := []))
  {
    var q' := q.(started := q.started + [t], hand := []);
    assert forall a: nat :: q'.Queued(a) <==> q.Queued(a);
    forall u | q'.Taken(u) && !u.Immediate() ensures exists b: nat :: q'.Gone(u, b) {
      assert q.Taken(u);
      var b: nat :| q.Gone(u, b);
      assert q'.Gone(u, b);
    }
    forall j, a, b | 0 <= j < |q'.started| && 0 <= a < b < |q.timed| && q'.started[j] == q.timed[b] &&
                     q.timed[a].nestable && q.timed[a].runTime <= q.timed[b].runTime
      ensures q.timed[a] in q'.started[..j]
    {
      if j < |q.started| {
        assert q'.started[..j] == q.started[..j];
      } else {
        assert q'.started[..j] == q.started;
        var c: nat :| q.Gone(t, c);
        assert c == b;
        assert !q.Queued(a) && q.Taken(q.timed[a]);
        assert q.timed[a] !in q.hand && q.timed[a] !in q.putOff;
      }
    }
  }

  lemma DeferKeepsOrdered(q: Timeline, t: Task)
    requires Ordered(q) && !t.nestable
    requires q.hand == [t] || (q.hand == [] && t.Immediate())
    ensures Ordered(q.(putOff := q.putOff + [t], hand := []))
  {
    var q' := q.(putOff := q.putOff + [t], hand := []);
    assert forall a: nat :: q'.Queued(a) <==> q.Queued(a);
    forall u | q'.Taken(u) && !u.Immediate() ensures exists b: nat :: q'.Gone(u, b) {
      assert q.Taken(u);
      var b: nat :| q.Gone(u, b);
      assert q'.Gone(u, b);
    }
  }

  // ----------------------------------------------------------------------------------------------
  // On the message loop
  // ----------------------------------------------------------------------------------------------

  ghost predicate Increasing(s: seq<Task>) {
    forall i, j :: 0 <= i < j < |s| ==> s[i].id < s[j].id
  }

  lemma {:induction false} SelectMembers(kind: Kind, s: seq<Task>)
    ensures forall t :: t in Select(kind, s) <==> t in s && IsA(kind, t)
    decreases s
  {
    if s != [] {
      SelectMembers(kind, s[1..]);
      assert s == [s[0]] + s[1..];
    }
  }

  lemma {:induction false} SelectIncreasing(kind: Kind, s: seq<Task>)
    requires Increasing(s)
    ensures Increasing(Select(kind, s))
    decreases s
  {
    if s != [] {
      var rest := Select(kind, s[1..]);
      SelectIncreasing(kind, s[1..]);
      SelectMembers(kind, s[1..]);
      assert forall t :: t in s[1..] ==> s[0].id < t.id;
      assert forall k :: 0 <= k < |rest| ==> rest[k] in s[1..];
      if IsA(kind, s[0]) {
        assert Select(kind, s) == [s[0]] + rest;
      } else {
        assert Select(kind, s) == rest;
      }
    }
  }

  lemma TimedIncreasing(p: Places)
    requires Numbered(p) && TimedOrder(p)
    ensures Increasing(p.timed)
    ensures forall a :: 0 <= a < |p.timed| ==> !p.timed[a].Immediate()
  {
    var all := Select(Timed, p.posted);
    SelectIncreasing(Timed, p.posted);
    SelectMembers(Timed, p.posted);
    assert p.timed == all[..|p.timed|];
    forall a | 0 <= a < |p.timed| ensures !p.timed[a].Immediate() {
      assert p.timed[a] == all[a] && all[a] in all;
    }
  }

  ghost predicate Orderly(s: State) {
    Safe(s) && History(PlacesOf(s)) && Ordered(TimelineOf(s)) && NarrowQueue(s.delayed)
  }

  lemma TimelineDistinct(s: State)
    requires History(PlacesOf(s))
    ensures Distinct(TimelineOf(s))
  {
    TimedIncreasing(PlacesOf(s));
  }

  lemma DispatchTimeline(s: State, top: nat)
    requires Nesting(s) && PumpEnabled(s, top) && s.Top().pc.Holding?
    ensures var q, t := TimelineOf(s), s.Top().pc.task;
            TimelineOf(DoPump(s, top)) ==
              if s.Top().pc.stage.FromWork? && !t.Immediate() then
                q.(timed := q.timed + [t], delayed := q.delayed + [DelayedTask(t, |q.timed|)])
              else if t.nestable || s.Depth() == 1 then q.(started := q.started + [t], hand := [])
              else q.(putOff := q.putOff + [t], hand := [])
  {
    TasksSnoc(s.started, Start(s.Top().pc.task, s.Depth(), s.nestableAllowed));
  }

  lemma HoldingKeepsOrdered(s: State, top: nat)
    requires Nesting(s) && HoldingStages(s) && Ordered(TimelineOf(s)) && Distinct(TimelineOf(s))
    requires PumpEnabled(s, top) && s.Top().pc.Holding? && Distinct(TimelineOf(DoPump(s, top)))
    ensures Ordered(TimelineOf(DoPump(s, top)))
  {
    var q, t := TimelineOf(s), s.Top().pc.task;
    DispatchTimeline(s, top);
    if s.Top().pc.stage.FromWork? && !t.Immediate() {
      PutKeepsOrdered(q, t);
    } else if t.nestable || s.Depth() == 1 {
      StartKeepsOrdered(q, t);
    } else {
      DeferKeepsOrdered(q, t);
    }
  }

  lemma DoDelayedWorkTimeline(s: State, top: nat)
    requires Nesting(s) && PumpEnabled(s, top) && s.Top().pc.DoDelayedWork?
    ensures var q := TimelineOf(s);
            TimelineOf(DoPump(s, top)) ==
              if DoPump(s, top).delayed != s.delayed then
                q.(delayed := WithoutAt(q.delayed, top), hand := [q.delayed[top].task])
              else q
  {
    if s.nestableAllowed && s.delayed != [] {
      assert |WithoutAt(s.delayed, top)| != |s.delayed|;
    }
  }

  lemma DoDelayedWorkKeepsOrdered(s: State, top: nat)
    requires Nesting(s) && Ordered(TimelineOf(s)) && NarrowQueue(s.delayed)
    requires PumpEnabled(s, top) && s.Top().pc.DoDelayedWork?
    ensures Ordered(TimelineOf(DoPump(s, top)))
  {
    DoDelayedWorkTimeline(s, top);
    if DoPump(s, top).delayed != s.delayed {
      PopKeepsOrdered(TimelineOf(s), top);
    }
  }

  lemma DoIdleWorkKeepsOrdered(s: State, top: nat)
    requires Orderly(s) && PumpEnabled(s, top) && s.Top().pc.DoIdleWork?
    ensures Ordered(TimelineOf(DoPump(s, top)))
  {
    if s.Depth() == 1 && s.deferred != [] {
      var t := s.deferred[0];
      assert s.putOff[|s.resumed|] == t;
      TimelineDistinct(s);
      TasksSnoc(s.started, Start(t, s.Depth(), s.nestableAllowed));
      StartKeepsOrdered(TimelineOf(s), t);
    }
  }

  lemma PlainKeepsTimeline(s: State, top: nat)
    requires PumpEnabled(s, top) && !s.Top().pc.Holding? && !s.Top().pc.DoDelayedWork? && !s.Top().pc.DoIdleWork?
    requires Nesting(s)
    ensures TimelineOf(DoPump(s, top)) == TimelineOf(s)
  {
    match s.Top().pc
    case Reload => ReloadMoves(s, top);
    case AfterDoWork(did) => CheckMoves(s, Pc.DoDelayedWork(did));
    case AfterDelayedWork(did) => CheckMoves(s, if did then DoWork else DoIdleWork);
    case AfterIdleWork(did) => CheckMoves(s, if did then DoWork else BeforeWait);
    case BeforeWait => BeforeWaitMoves(s);
    case _ =>
  }

  lemma OtherKeepsTimeline(s: State, step: Step)
    requires Enabled(s, step) && !step.Pump? && Nesting(s)
    ensures TimelineOf(Do(s, step)) == TimelineOf(s)
  {
  }

  lemma StepKeepsOrdered(s: State, step: Step)
    requires Orderly(s) && Enabled(s, step)
    ensures Safe(Do(s, step)) && History(PlacesOf(Do(s, step))) && Ordered(TimelineOf(Do(s, step)))
  {
    SafeTasksFit(s);
    StepMoves(s, step);
    MoveKeepsHistory(PlacesOf(s), MoveOf(s, step));
    StepKeepsSafe(s, step);
    if step.Pump? {
      var top := step.top;
      match s.Top().pc
      case Holding(_, _, _) =>
        TimelineDistinct(s);
        TimelineDistinct(Do(s, step));
        HoldingKeepsOrdered(s, top);
      case DoDelayedWork(_) => DoDelayedWorkKeepsOrdered(s, top);
      case DoIdleWork => DoIdleWorkKeepsOrdered(s, top);
      case _ => PlainKeepsTimeline(s, top);
    } else {
      OtherKeepsTimeline(s, step);
    }
  }

  /** In every state the run goes through, the sequence numbers in the delayed queue are close together. */
  ghost predicate StaysNarrow(s: State, steps: seq<Step>)
    requires Possible(s, steps)
    decreases |steps|
  {
    NarrowQueue(s.delayed) && (steps != [] ==> StaysNarrow(Do(s, steps[0]), steps[1..]))
  }

  lemma {:induction false} RunKeepsOrdered(s: State, steps: seq<Step>)
    requires Safe(s) && History(PlacesOf(s)) && Ordered(TimelineOf(s))
    requires Possible(s, steps) && StaysNarrow(s, steps)
    ensures History(PlacesOf(After(s, steps))) && Ordered(TimelineOf(After(s, steps)))
    decreases |steps|
  {
    if steps != [] {
      StepKeepsOrdered(s, steps[0]);
      RunKeepsOrdered(Do(s, steps[0]), steps[1..]);
    }
  }

  lemma {:induction false} SelectIsNoLonger(kind: Kind, s: seq<Task>)
    ensures |Select(kind, s)| <= |s|
    decreases s
  {
    if s != [] { SelectIsNoLonger(kind, s[1..]); }
  }

  lemma {:induction false} PostedGrows(s: State, steps: seq<Step>)
    requires Safe(s) && Possible(s, steps)
    ensures |s.posted| <= |After(s, steps).posted|
    decreases |steps|
  {
    if steps != [] {
      SafeTasksFit(s);
      StepMoves(s, steps[0]);
      assert PlacesOf(Do(s, steps[0])).posted == Do(s, steps[0]).posted;
      StepKeepsSafe(s, steps[0]);
      PostedGrows(Do(s, steps[0]), steps[1..]);
    }
  }

  /** Numbers below the number of posted tasks are close together as long as there are not too many of those. */
  lemma FewAreNarrow(s: State)
    requires History(PlacesOf(s)) && Ordered(TimelineOf(s)) && |s.posted| <= TWO_31
    ensures NarrowQueue(s.delayed)
  {
    SelectIsNoLonger(Timed, s.posted);
    assert |s.timed| <= |s.posted|;
    assert Entries(TimelineOf(s));
  }

  lemma {:induction false} FewStayNarrow(s: State, steps: seq<Step>)
    requires Safe(s) && History(PlacesOf(s)) && Ordered(TimelineOf(s)) && Possible(s, steps)
    requires |After(s, steps).posted| <= TWO_31
    ensures StaysNarrow(s, steps)
    decreases |steps|
  {
    PostedGrows(s, steps);
    FewAreNarrow(s);
    if steps != [] {
      StepKeepsOrdered(s, steps[0]);
      FewStayNarrow(Do(s, steps[0]), steps[1..]);
    }
  }
}
