/** Notifications that are on their way to an observer when it is removed do not reach it any more. */
module ObserverListThreadSafeRemoval {
  import opened Basics
  import Lists = ObserverLists
  import opened ObserverListThreadSafe
  import Safety = ObserverListSafety
  import opened ObserverListThreadSafeProofs

  // ----------------------------------------------------------------------------------------------
  // Where a thread may list an observer
  // ----------------------------------------------------------------------------------------------

  /** A removal works on the thread's mapped context, or has just taken that off the map. */
  ghost predicate RemovesMapped(t: Thread) {
    t.op.Removing? && t.mapped.Some? ==> t.mapped.value == t.op.id
  }

  ghost predicate HasNoDoubles(t: Thread, id: nat) {
    id in t.contexts ==> Safety.AreUnique(t.contexts[id].slots)
  }

  /** The context does not list the observer, and the thread is not about to add it. */
  ghost predicate IsOff(t: Thread, obs: Lists.Observer, id: nat) {
    && !(t.op.Adding? && t.op.obs == obs)
    && (id in t.contexts ==> obs !in Lists.Live(t.contexts[id].slots))
  }

  lemma EndWalkKeepsNoDoubles(t: Thread, id: nat)
    requires t.stack != [] && t.stack[|t.stack| - 1].id in t.contexts && HasNoDoubles(t, id)
    ensures HasNoDoubles(EndWalk(t, t.stack[|t.stack| - 1].id), id)
  {
    if t.stack[|t.stack| - 1].id == id { Safety.CompactedIsPlain(t.contexts[id].slots); }
  }

  lemma StepKeepsNoDoubles(t: Thread, e: Event, all: bool, id: nat)
    requires Possible(t, e) && HasNoDoubles(t, id)
    ensures HasNoDoubles(Step(t, e, all), id)
  {
    if e.FinishAdd? && id in t.contexts {
      Safety.AddedLive(t.contexts[id].slots, t.op.obs);
    } else if e.FinishRemove? && id in t.contexts {
      Safety.RemovedLive(t.contexts[id].slots, t.op.obs, t.contexts[id].depth > 0);
    } else if e.GetNext? && t.stack[|t.stack| - 1].id in t.contexts {
      EndWalkKeepsNoDoubles(t, id);
    }
  }

  lemma StepKeepsRemovesMapped(t: Thread, e: Event, all: bool)
    requires Possible(t, e) && RemovesMapped(t)
    ensures RemovesMapped(Step(t, e, all))
  {
  }

  // ----------------------------------------------------------------------------------------------
  // A removal takes the observer off all contexts of the thread
  // ----------------------------------------------------------------------------------------------

  /** RemoveObserver is done with the list after this step: it has removed, or has found no context. */
  predicate Removes(t: Thread, e: Event, obs: Lists.Observer) {
    (e.FinishRemove? && t.op.Removing? && t.op.obs == obs) || (e == StartRemove(obs) && t.mapped.None?)
  }

  lemma RemovalTakesOff(t: Thread, e: Event, all: bool, obs: Lists.Observer, id: nat)
    requires Possible(t, e) && Removes(t, e, obs)
    requires Inv(t, id) && HasNoDoubles(t, id) && RemovesMapped(t)
    ensures IsOff(Step(t, e, all), obs, id)
  {
    if e.FinishRemove? && t.op.id == id {
      var c := t.contexts[id];
      Safety.RemovedLive(c.slots, obs, c.depth > 0);
      Lists.WithoutHas(Lists.Live(c.slots), {obs}, obs);
    }
  }

  lemma AddedKeepsOff(slots: Lists.Slots, other: Lists.Observer, obs: Lists.Observer)
    requires other != obs && obs !in Lists.Live(slots)
    ensures obs !in Lists.Live(Lists.Added(slots, other))
  {
    Lists.LiveHas(slots, obs);
    Lists.LiveHas(Lists.Added(slots, other), obs);
  }

  lemma RemovedKeepsOff(slots: Lists.Slots, other: Lists.Observer, walked: bool, obs: Lists.Observer)
    requires obs !in Lists.Live(slots)
    ensures obs !in Lists.Live(Lists.Removed(slots, other, walked))
  {
    Lists.LiveHas(slots, obs);
    Lists.LiveHas(Lists.Removed(slots, other, walked), obs);
  }

  lemma EndWalkKeepsOff(t: Thread, obs: Lists.Observer, id: nat)
    requires t.stack != [] && t.stack[|t.stack| - 1].id in t.contexts && IsOff(t, obs, id)
    ensures IsOff(EndWalk(t, t.stack[|t.stack| - 1].id), obs, id)
  {
    if t.stack[|t.stack| - 1].id == id { Safety.LiveEntries(Lists.Live(t.contexts[id].slots)); }
  }

  /** Only adding it again puts an observer on a list, and that into whatever context. */
  lemma StepKeepsOff(t: Thread, e: Event, all: bool, obs: Lists.Observer, id: nat)
    requires Possible(t, e) && IsOff(t, obs, id) && e != StartAdd(obs)
    ensures IsOff(Step(t, e, all), obs, id)
  {
    if e.FinishAdd? && id in t.contexts {
      AddedKeepsOff(t.contexts[id].slots, t.op.obs, obs);
    } else if e.FinishRemove? && id in t.contexts {
      RemovedKeepsOff(t.contexts[id].slots, t.op.obs, t.contexts[id].depth > 0, obs);
    } else if e.GetNext? && t.stack[|t.stack| - 1].id in t.contexts {
      EndWalkKeepsOff(t, obs, id);
    }
  }

  // ----------------------------------------------------------------------------------------------
  // Whole runs
  // ----------------------------------------------------------------------------------------------

  lemma {:induction false} RunKeepsNoDoubles(threads: seq<Thread>, events: seq<SystemEvent>, all: bool, i: nat, id: nat)
    requires CanRun(threads, events, all) && i < |threads| && HasNoDoubles(threads[i], id) && RemovesMapped(threads[i])
    ensures i < |Run(threads, events, all)|
    ensures HasNoDoubles(Run(threads, events, all)[i], id) && RemovesMapped(Run(threads, events, all)[i])
    decreases events
  {
    if events != [] {
      var e := events[0];
      if e.Notify? {
        PostedToAll(threads, all);
      } else if e.thread == i {
        StepKeepsNoDoubles(threads[i], e.event, all, id);
        StepKeepsRemovesMapped(threads[i], e.event, all);
      }
      RunKeepsNoDoubles(SystemStep(threads, e, all), events[1..], all, i, id);
    }
  }

  lemma {:induction false} RunKeepsOff(threads: seq<Thread>, events: seq<SystemEvent>, all: bool, i: nat,
          obs: Lists.Observer, id: nat)
    requires CanRun(threads, events, all) && i < |threads| && IsOff(threads[i], obs, id)
    requires Local(i, StartAdd(obs)) !in events
    ensures i < |Run(threads, events, all)| && IsOff(Run(threads, events, all)[i], obs, id)
    decreases events
  {
    if events != [] {
      var e := events[0];
      if e.Notify? {
        PostedToAll(threads, all);
      } else if e.thread == i {
        StepKeepsOff(threads[i], e.event, all, obs, id);
      }
      RunKeepsOff(SystemStep(threads, e, all), events[1..], all, i, obs, id);
    }
  }

  /** The observer that the frame's iterator would return next. */
  function NextOf(t: Thread, f: Frame): Option<Lists.Observer>
    requires f.id in t.contexts
  {
    Lists.Next(t.contexts[f.id].slots, f.cursor).0
  }

  /** In every reachable state, the iterator of any walk returns only observers on the list it walks over. */
  lemma OnlyListedAreNotified(t: Thread, n: nat, events: seq<SystemEvent>, all: bool, i: nat, f: Frame)
    requires IsReached(t, n, events, all, i) && f in t.stack
    ensures f.id in t.contexts
    ensures NextOf(t, f).Some? ==> NextOf(t, f).value in Lists.Live(t.contexts[f.id].slots)
  {
    ReachedInv(t, n, events, all, i, f.id);
    FrameCounts(t.stack, f);
    Safety.NextIsListed(t.contexts[f.id].slots, f.cursor);
  }

  lemma {:induction false} FrameCounts(stack: seq<Frame>, f: Frame)
    requires f in stack
    ensures FramesOf(stack, f.id) > 0
  {
    if stack[|stack| - 1] != f { FrameCounts(stack[..|stack| - 1], f); }
  }

  /**
    Once RemoveObserver has been called on the observer's thread, and until it is added there again, no
    walk of that thread returns the observer: not the notifications that were posted before, not the
    walks that were under way, nor those over a context that has been replaced since.
   */
  lemma RemovedIsNotNotified(t: Thread, n: nat, events: seq<SystemEvent>, all: bool, i: nat, e: Event,
          obs: Lists.Observer, later: seq<SystemEvent>)
    requires IsReached(t, n, events, all, i) && !e.Post? && Possible(t, e) && Removes(t, e, obs)
    requires var removed := SystemStep(Run(Started(n), events, all), Local(i, e), all);
             CanRun(removed, later, all) && Local(i, StartAdd(obs)) !in later
    ensures var last := Run(SystemStep(Run(Started(n), events, all), Local(i, e), all), later, all);
            && i < |last|
            && forall f :: f in last[i].stack && f.id in last[i].contexts ==> NextOf(last[i], f) != Some(obs)
  {
    var last := Run(SystemStep(Run(Started(n), events, all), Local(i, e), all), later, all);
    RemovedStaysOff(t, n, events, all, i, e, obs, later, 0);
    forall f | f in last[i].stack && f.id in last[i].contexts ensures NextOf(last[i], f) != Some(obs) {
      RemovedStaysOff(t, n, events, all, i, e, obs, later, f.id);
      Safety.NextIsListed(last[i].contexts[f.id].slots, f.cursor);
    }
  }

  lemma RemovedStaysOff(t: Thread, n: nat, events: seq<SystemEvent>, all: bool, i: nat, e: Event, obs: Lists.Observer,
          later: seq<SystemEvent>, id: nat)
    requires IsReached(t, n, events, all, i) && !e.Post? && Possible(t, e) && Removes(t, e, obs)
    requires var removed := SystemStep(Run(Started(n), events, all), Local(i, e), all);
             CanRun(removed, later, all) && Local(i, StartAdd(obs)) !in later
    ensures var last := Run(SystemStep(Run(Started(n), events, all), Local(i, e), all), later, all);
            i < |last| && IsOff(last[i], obs, id)
  {
    ReachedInv(t, n, events, all, i, id);
    AllStart(n);
    RunKeepsNoDoubles(Started(n), events, all, i, id);
    RemovalTakesOff(t, e, all, obs, id);
    RunKeepsOff(SystemStep(Run(Started(n), events, all), Local(i, e), all), later, all, i, obs, id);
  }
}
