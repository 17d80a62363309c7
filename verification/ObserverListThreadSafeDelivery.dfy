/** A notification reaches every observer: each context gets a call, and the call walks over all of its list. */
module ObserverListThreadSafeDelivery {
  import opened Basics
  import Lists = ObserverLists
  import opened ObserverListThreadSafe
  import Safety = ObserverListSafety
  import opened ObserverListThreadSafeProofs
  import opened ObserverListThreadSafeRemoval

  // ----------------------------------------------------------------------------------------------
  // Posting
  // ----------------------------------------------------------------------------------------------

  /** The threads from a fresh list. */
  ghost predicate AreReached(threads: seq<Thread>, n: nat, events: seq<SystemEvent>, all: bool) {
    CanRun(Started(n), events, all) && threads == Run(Started(n), events, all)
  }

  lemma {:induction false} RunKeepsCount(threads: seq<Thread>, events: seq<SystemEvent>, all: bool)
    requires CanRun(threads, events, all)
    ensures |Run(threads, events, all)| == |threads|
    decreases events
  {
    if events != [] {
      if events[0].Notify? { PostedToAll(threads, all); }
      RunKeepsCount(SystemStep(threads, events[0], all), events[1..], all);
    }
  }

  lemma AreReachedEach(threads: seq<Thread>, n: nat, events: seq<SystemEvent>, all: bool)
    requires AreReached(threads, n, events, all)
    ensures |threads| == n && forall i :: 0 <= i < n ==> IsReached(threads[i], n, events, all, i)
  {
    AllStart(n);
    RunKeepsCount(Started(n), events, all);
  }

  /** Notify gives every thread with a context in the map one call for it, and changes nothing else. */
  lemma NotifyPostsToEachContext(threads: seq<Thread>, n: nat, events: seq<SystemEvent>, all: bool)
    requires AreReached(threads, n, events, all)
    ensures var posted := SystemStep(threads, Notify, all);
            && |posted| == |threads|
            && forall i :: 0 <= i < |threads| ==>
                 posted[i] == threads[i].(tasks := threads[i].tasks +
                                          if threads[i].mapped.Some? then [threads[i].mapped.value] else [])
  {
    AreReachedEach(threads, n, events, all);
    PostedToAll(threads, all);
    forall i | 0 <= i < n
      ensures SystemStep(threads, Notify, all)[i] ==
              threads[i].(tasks := threads[i].tasks +
                          if threads[i].mapped.Some? then [threads[i].mapped.value] else [])
    {
      if threads[i].mapped.Some? { ReachedInv(threads[i], n, events, all, i, threads[i].mapped.value); }
      assert threads[i].tasks + [] == threads[i].tasks;
    }
  }

  // ----------------------------------------------------------------------------------------------
  // Who is on a thread's list
  // ----------------------------------------------------------------------------------------------

  function LiveIn(t: Thread, id: nat): seq<Lists.Observer> {
    if id in t.contexts then Lists.Live(t.contexts[id].slots) else []
  }

  /** The observers of the thread, with what it is just adding, and without what it is just removing. */
  function Listed(t: Thread): seq<Lists.Observer> {
    match t.op
    case Adding(id, obs) => Lists.PlainStep(LiveIn(t, id), Lists.AddObserver(obs))
    case Removing(id, obs) => Lists.PlainStep(LiveIn(t, id), Lists.RemoveObserver(obs))
    case _ => if t.mapped.Some? then LiveIn(t, t.mapped.value) else []
  }

  /** What the event makes of a plain list. */
  function ListedAfter(list: seq<Lists.Observer>, e: Event): seq<Lists.Observer> {
    match e
    case StartAdd(obs) => Lists.PlainStep(list, Lists.AddObserver(obs))
    case StartRemove(obs) => Lists.PlainStep(list, Lists.RemoveObserver(obs))
    case _ => list
  }

  /** What the thread has added and not removed, in the order of adding. */
  function PlainList(events: seq<SystemEvent>, i: nat): seq<Lists.Observer> {
    if events == [] then []
    else
      var before, last := PlainList(events[..|events| - 1], i), events[|events| - 1];
      if last.Local? && last.thread == i then ListedAfter(before, last.event) else before
  }

  lemma AddIsListed(t: Thread, e: Event, all: bool)
    requires (e.StartAdd? || e.FinishAdd?) && Possible(t, e)
    requires t.mapped.Some? ==> Inv(t, t.mapped.value)
    requires t.op.Adding? ==> Inv(t, t.op.id) && HasNoDoubles(t, t.op.id)
    ensures Listed(Step(t, e, all)) == ListedAfter(Listed(t), e)
  {
    if e.FinishAdd? { Safety.AddedLive(t.contexts[t.op.id].slots, t.op.obs); }
  }

  lemma RemoveIsListed(t: Thread, e: Event, all: bool)
    requires (e.StartRemove? || e.FinishRemove?) && Possible(t, e) && RemovesMapped(t)
    requires t.mapped.Some? ==> Inv(t, t.mapped.value)
    requires t.op.Removing? ==> Inv(t, t.op.id) && HasNoDoubles(t, t.op.id)
    ensures Listed(Step(t, e, all)) == ListedAfter(Listed(t), e)
  {
    if e.FinishRemove? {
      var c, obs := t.contexts[t.op.id], t.op.obs;
      Safety.RemovedLive(c.slots, obs, c.depth > 0);
      if t.mapped.None? { LosingLastLeavesNone(t); }
    }
  }

  lemma LosingLastLeavesNone(t: Thread)
    requires t.op.Removing? && t.mapped.None? && Inv(t, t.op.id)
    ensures Lists.Without(LiveIn(t, t.op.id), {t.op.obs}) == []
  {
    if t.contexts[t.op.id].slots == [Some(t.op.obs)] {
      assert Lists.Live([Some(t.op.obs)]) == [t.op.obs];
    }
    Lists.WithoutAll(LiveIn(t, t.op.id), {t.op.obs});
  }

  lemma WalkIsListed(t: Thread, e: Event, all: bool)
    requires (e.RunTask? || e.GetNext?) && Possible(t, e)
    ensures Listed(Step(t, e, all)) == Listed(t)
  {
    if e.GetNext? && t.stack[|t.stack| - 1].id in t.contexts {
      Safety.LiveEntries(LiveIn(t, t.stack[|t.stack| - 1].id));
    }
  }

  lemma DeleteIsListed(t: Thread, e: Event, all: bool)
    requires (e.EraseEmptied? || e.Delete?) && Possible(t, e) && Inv(t, t.op.id)
    ensures Listed(Step(t, e, all)) == Listed(t)
  {
  }

  lemma StepIsListed(t: Thread, e: Event, all: bool)
    requires Possible(t, e) && RemovesMapped(t)
    requires t.mapped.Some? ==> Inv(t, t.mapped.value)
    requires !t.op.Idle? ==> Inv(t, t.op.id) && HasNoDoubles(t, t.op.id)
    ensures Listed(Step(t, e, all)) == ListedAfter(Listed(t), e)
  {
    if e.StartAdd? || e.FinishAdd? { AddIsListed(t, e, all); }
    else if e.StartRemove? || e.FinishRemove? { RemoveIsListed(t, e, all); }
    else if e.RunTask? || e.GetNext? { WalkIsListed(t, e, all); }
    else if e.EraseEmptied? || e.Delete? { DeleteIsListed(t, e, all); }
  }

  lemma {:induction false} RunSnoc(threads: seq<Thread>, events: seq<SystemEvent>, e: SystemEvent, all: bool)
    requires CanRun(threads, events + [e], all)
    ensures CanRun(threads, events, all) && PossibleInSystem(Run(threads, events, all), e)
    ensures Run(threads, events + [e], all) == SystemStep(Run(threads, events, all), e, all)
    decreases events
  {
    if events == [] {
      assert events + [e] == [e] && [e][1..] == [];
    } else {
      assert (events + [e])[1..] == events[1..] + [e];
      RunSnoc(SystemStep(threads, events[0], all), events[1..], e, all);
    }
  }

  lemma {:induction false} ListIsPlain(n: nat, events: seq<SystemEvent>, all: bool, i: nat)
    requires CanRun(Started(n), events, all) && i < n
    ensures |Run(Started(n), events, all)| == n
    ensures Listed(Run(Started(n), events, all)[i]) == PlainList(events, i)
    decreases |events|
  {
    AreReachedEach(Run(Started(n), events, all), n, events, all);
    if events == [] {
      AllStart(n);
    } else {
      var before, e := events[..|events| - 1], events[|events| - 1];
      assert events == before + [e];
      RunSnoc(Started(n), before, e, all);
      ListIsPlain(n, before, all, i);
      var threads := Run(Started(n), before, all);
      if e.Notify? {
        PostedToAll(threads, all);
        LocalIsListed(threads[i], n, before, all, i, Post);
      } else if e.thread == i {
        LocalIsListed(threads[i], n, before, all, i, e.event);
      }
    }
  }

  lemma LocalIsListed(t: Thread, n: nat, events: seq<SystemEvent>, all: bool, i: nat, e: Event)
    requires IsReached(t, n, events, all, i) && Possible(t, e)
    ensures Listed(Step(t, e, all)) == ListedAfter(Listed(t), e)
  {
    AllStart(n);
    RunKeepsNoDoubles(Started(n), events, all, i, 0);
    if t.mapped.Some? { ReachedInv(t, n, events, all, i, t.mapped.value); }
    if !t.op.Idle? {
      ReachedInv(t, n, events, all, i, t.op.id);
      RunKeepsNoDoubles(Started(n), events, all, i, t.op.id);
    }
    StepIsListed(t, e, all);
  }

  // ----------------------------------------------------------------------------------------------
  // The walk
  // ----------------------------------------------------------------------------------------------

  /** The innermost walk: its list and what is left of it. */
  ghost predicate IsLeft(t: Thread, slots: Lists.Slots, left: seq<Lists.Observer>) {
    && t.op == Idle && t.stack != []
    && var f := t.stack[|t.stack| - 1];
       && f.id in t.contexts && t.contexts[f.id].slots == slots
       && Lists.IsWithin(slots, f.cursor) && Lists.Pending(slots, f.cursor) == left
  }

  /** A round with something left returns the first of it and changes nothing else. */
  lemma RoundReturnsFirst(t: Thread, slots: Lists.Slots, left: seq<Lists.Observer>, all: bool)
    requires IsLeft(t, slots, left) && left != []
    ensures var t' := Step(t, GetNext, all);
            && NextOf(t, t.stack[|t.stack| - 1]) == Some(left[0]) && IsLeft(t', slots, left[1..])
            && t'.contexts == t.contexts && t'.mapped == t.mapped && t'.tasks == t.tasks
            && |t'.stack| == |t.stack| && t'.stack[..|t.stack| - 1] == t.stack[..|t.stack| - 1]
            && t'.stack[|t.stack| - 1].id == t.stack[|t.stack| - 1].id
  {
    var f := t.stack[|t.stack| - 1];
    Safety.NextIsFirst(slots, f.cursor);
    var (obs, next) := Lists.Next(slots, f.cursor);
    assert left == [obs.value] + Lists.Pending(slots, next);
    assert left[1..] == Lists.Pending(slots, next);
  }

  /** With nothing left the next round finds nothing, and the call is over. */
  lemma LastRoundEnds(t: Thread, slots: Lists.Slots, all: bool)
    requires IsLeft(t, slots, [])
    ensures NextOf(t, t.stack[|t.stack| - 1]) == None
    ensures Step(t, GetNext, all).stack == t.stack[..|t.stack| - 1]
  {
    Safety.NextIsFirst(slots, t.stack[|t.stack| - 1].cursor);
  }

  /** The observers that the rounds of the innermost walk return, up to the first that finds none. */
  ghost predicate Delivers(t: Thread, all: bool, observers: seq<Lists.Observer>)
    decreases |observers|
  {
    && Possible(t, GetNext) && t.stack[|t.stack| - 1].id in t.contexts
    && if observers == [] then
         && NextOf(t, t.stack[|t.stack| - 1]) == None
         && Step(t, GetNext, all).stack == t.stack[..|t.stack| - 1]
       else
         && NextOf(t, t.stack[|t.stack| - 1]) == Some(observers[0])
         && Delivers(Step(t, GetNext, all), all, observers[1..])
  }

  lemma {:induction false} WalkDelivers(t: Thread, slots: Lists.Slots, left: seq<Lists.Observer>, all: bool)
    requires IsLeft(t, slots, left)
    ensures Delivers(t, all, left)
    decreases |left|
  {
    if left == [] {
      LastRoundEnds(t, slots, all);
    } else {
      RoundReturnsFirst(t, slots, left, all);
      WalkDelivers(Step(t, GetNext, all), slots, left[1..], all);
    }
  }

  /**
    The call, run while its context is still the thread's: it is taken off the queue, and if nothing comes
    in between, its walk returns all observers of the list, in their order, and then comes to an end.
   */
  lemma CallDelivers(t: Thread, n: nat, events: seq<SystemEvent>, all: bool, i: nat, k: nat)
    requires IsReached(t, n, events, all, i) && Possible(t, RunTask(k)) && t.mapped == Some(t.tasks[k])
    ensures t.tasks[k] in t.contexts
    ensures var t' := Step(t, RunTask(k), all);
            && t'.tasks == WithoutAt(t.tasks, k) && |t'.stack| == |t.stack| + 1 && t'.stack[..|t.stack|] == t.stack
            && Delivers(t', all, Lists.Live(t.contexts[t.tasks[k]].slots))
  {
    var id := t.tasks[k];
    ReachedInv(t, n, events, all, i, id);
    var slots := t.contexts[id].slots;
    var t' := Step(t, RunTask(k), all);
    assert slots[0..|slots|] == slots;
    WalkDelivers(t', slots, Lists.Live(slots), all);
  }

  /** A call whose context is not the thread's any more returns nothing and leaves the lists alone. */
  lemma StaleCallIsDropped(t: Thread, k: nat, all: bool)
    requires Possible(t, RunTask(k)) && t.mapped != Some(t.tasks[k])
    ensures Step(t, RunTask(k), all) == t.(tasks := WithoutAt(t.tasks, k))
  {
  }

  /**
    Notify: a thread that is not just changing its list, and runs the call next, notifies exactly the
    observers that it has added and not removed, each once and in the order they were added; a thread
    that has none gets no call.
   */
  lemma NotifyReachesAll(threads: seq<Thread>, n: nat, events: seq<SystemEvent>, all: bool, i: nat)
    requires AreReached(threads, n, events, all) && i < n && i < |threads| && threads[i].op == Idle
    ensures var posted := SystemStep(threads, Notify, all);
            && |posted| == n
            && if threads[i].mapped.None? then PlainList(events, i) == [] && posted[i] == threads[i]
               else
                 var call := RunTask(|threads[i].tasks|);
                 && posted[i].tasks == threads[i].tasks + [threads[i].mapped.value] && Possible(posted[i], call)
                 && Delivers(Step(posted[i], call, all), all, PlainList(events, i))
  {
    AreReachedEach(threads, n, events, all);
    NotifyPostsToEachContext(threads, n, events, all);
    ListIsPlain(n, events, all, i);
    var t := SystemStep(threads, Notify, all)[i];
    assert threads[i].tasks + [] == threads[i].tasks;
    if t.mapped.Some? {
      ReachedInv(threads[i], n, events, all, i, t.mapped.value);
      var slots := t.contexts[t.mapped.value].slots;
      assert slots[0..|slots|] == slots;
      WalkDelivers(Step(t, RunTask(|threads[i].tasks|), all), slots, Lists.Live(slots), all);
    }
  }
}
