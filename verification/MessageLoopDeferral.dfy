/** The tasks that were put off because they must not be nested: they start in the order of their deferral. */
module MessageLoopDeferral {
  import opened Basics
  import opened PendingTasks
  import opened MessageLoops
  import opened MessageLoopSafety
  import opened MessageLoopHistory
  import opened MessageLoopDelayed

  /** The tasks of `s` that are also in `these`, in their order in `s`. */
  ghost function Only(s: seq<Task>, these: seq<Task>): seq<Task>
    decreases s
  {
    if s == [] then [] else (if s[0] in these then [s[0]] else []) + Only(s[1..], these)
  }

  lemma {:induction false} OnlySnoc(s: seq<Task>, x: Task, these: seq<Task>)
    ensures Only(s + [x], these) == Only(s, these) + if x in these then [x] else []
    decreases s
  {
    if s == [] {
      assert s + [x] == [x] && [x][1..] == [];
    } else {
      assert (s + [x])[1..] == s[1..] + [x] && (s + [x])[0] == s[0];
      OnlySnoc(s[1..], x, these);
      Regroup(if s[0] in these then [s[0]] else [], Only(s[1..], these), if x in these then [x] else []);
    }
  }

  lemma {:induction false} OnlyIgnores(s: seq<Task>, these: seq<Task>, x: Task)
    requires x !in s
    ensures Only(s, these + [x]) == Only(s, these)
    decreases s
  {
    if s != [] { OnlyIgnores(s[1..], these, x); }
  }

  lemma {:induction false} OnlyMembers(s: seq<Task>, these: seq<Task>, x: Task)
    requires x in Only(s, these)
    ensures x in s
    decreases s
  {
    if s[0] != x { OnlyMembers(s[1..], these, x); }
  }

  /** Of the tasks put off, in that order, some have started, and the others are still waiting. */
  ghost predicate InDeferralOrder(p: Places, putOff: seq<Task>) {
    Only(p.started, putOff) + p.deferred == putOff
  }

  // ----------------------------------------------------------------------------------------------
  // Every move keeps it
  // ----------------------------------------------------------------------------------------------

  lemma {:induction false} PostedOnce(s: seq<Task>, from: nat, t: Task)
    requires forall k :: 0 <= k < |s| ==> s[k].id == from + k
    ensures multiset(s)[t] <= 1
    decreases s
  {
    if s != [] {
      assert s == [s[0]] + s[1..];
      PostedOnce(s[1..], from + 1, t);
    }
  }

  /** A task in hand has neither started nor been put off. */
  lemma HandIsElsewhere(p: Places, t: Task)
    requires Numbered(p) && Conserved(p) && (p.fromWork == [t] || p.fromDelayed == [t])
    ensures t !in p.started && t !in p.deferred
  {
    PostedOnce(p.posted, 0, t);
    assert multiset([t])[t] == 1;
  }

  ghost function PutOffBy(p: Places, m: Move): seq<Task> {
    match m
    case DeferFromWork => p.fromWork
    case DeferFromDelayed => p.fromDelayed
    case _ => []
  }

  lemma MoveKeepsDeferralOrder(p: Places, m: Move, putOff: seq<Task>)
    requires History(p) && CanMove(p, m) && InDeferralOrder(p, putOff)
    ensures InDeferralOrder(DoMove(p, m), putOff + PutOffBy(p, m))
  {
    assert putOff + [] == putOff;
    match m
    case DeferFromWork => DeferKeepsDeferralOrder(p, p.fromWork[0], putOff);
    case DeferFromDelayed => DeferKeepsDeferralOrder(p, p.fromDelayed[0], putOff);
    case StartFromWork => StartKeepsDeferralOrder(p, p.fromWork[0], putOff);
    case StartFromDelayed => StartKeepsDeferralOrder(p, p.fromDelayed[0], putOff);
    case Resume => ResumeKeepsDeferralOrder(p, putOff);
    case _ =>
  }

  lemma DeferKeepsDeferralOrder(p: Places, t: Task, putOff: seq<Task>)
    requires Numbered(p) && Conserved(p) && (p.fromWork == [t] || p.fromDelayed == [t]) && InDeferralOrder(p, putOff)
    ensures Only(p.started, putOff + [t]) + (p.deferred + [t]) == putOff + [t]
  {
    HandIsElsewhere(p, t);
    OnlyIgnores(p.started, putOff, t);
    Regroup(Only(p.started, putOff), p.deferred, [t]);
  }

  lemma StartKeepsDeferralOrder(p: Places, t: Task, putOff: seq<Task>)
    requires Numbered(p) && Conserved(p) && (p.fromWork == [t] || p.fromDelayed == [t]) && InDeferralOrder(p, putOff)
    ensures Only(p.started + [t], putOff) + p.deferred == putOff
  {
    HandIsElsewhere(p, t);
    OnlySnoc(p.started, t, putOff);
    if t in putOff { OnlyMembers(p.started, putOff, t); }
  }

  lemma ResumeKeepsDeferralOrder(p: Places, putOff: seq<Task>)
    requires p.deferred != [] && InDeferralOrder(p, putOff)
    ensures Only(p.started + [p.deferred[0]], putOff) + p.deferred[1..] == putOff
  {
    var t := p.deferred[0];
    OnlySnoc(p.started, t, putOff);
    assert putOff[|Only(p.started, putOff)|] == t;
    Regroup(Only(p.started, putOff), [t], p.deferred[1..]);
    assert [t] + p.deferred[1..] == p.deferred;
  }

  // ----------------------------------------------------------------------------------------------
  // Every step of the message loop
  // ----------------------------------------------------------------------------------------------

  /** What a step adds to the tasks put off, by the program point it starts from. */
  lemma StepPutsOff(s: State, step: Step)
    requires Safe(s) && Enabled(s, step)
    ensures Do(s, step).putOff == s.putOff + PutOffBy(PlacesOf(s), MoveOf(s, step))
  {
    assert s.putOff + [] == s.putOff;
    if step.Pump? {
      var top := step.top;
      match s.Top().pc
      case Holding(_, _, _) => DispatchTimeline(s, top);
      case DoDelayedWork(_) => DoDelayedWorkTimeline(s, top);
      case DoIdleWork =>
      case _ => PlainKeepsTimeline(s, top);
    } else {
      OtherKeepsTimeline(s, step);
    }
  }

  lemma {:induction false} RunKeepsDeferralOrder(s: State, steps: seq<Step>)
    requires Safe(s) && History(PlacesOf(s)) && InDeferralOrder(PlacesOf(s), s.putOff) && Possible(s, steps)
    ensures InDeferralOrder(PlacesOf(After(s, steps)), After(s, steps).putOff)
    decreases |steps|
  {
    if steps != [] {
      SafeTasksFit(s);
      StepMoves(s, steps[0]);
      MoveKeepsHistory(PlacesOf(s), MoveOf(s, steps[0]));
      StepPutsOff(s, steps[0]);
      MoveKeepsDeferralOrder(PlacesOf(s), MoveOf(s, steps[0]), s.putOff);
      StepKeepsSafe(s, steps[0]);
      RunKeepsDeferralOrder(Do(s, steps[0]), steps[1..]);
    }
  }
}
