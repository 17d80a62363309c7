/** The life of a context: made once, deleted once, and used only in between. */
module ObserverListThreadSafeProofs {
  import opened Basics
  import Lists = ObserverLists
  import opened ObserverListThreadSafe
  import Safety = ObserverListSafety

  // ----------------------------------------------------------------------------------------------
  // Invariant, for one context
  // ----------------------------------------------------------------------------------------------

  function FramesOf(stack: seq<Frame>, id: nat): nat {
    if stack == [] then 0
    else FramesOf(stack[..|stack| - 1], id) + if stack[|stack| - 1].id == id then 1 else 0
  }

  ghost predicate Names(op: Op, id: nat) {
    !op.Idle? && op.id == id
  }

  /** The thread is about to remove the only observer, and has taken the context off the map for that. */
  ghost predicate IsLosingLast(op: Op, id: nat, slots: Lists.Slots) {
    op.Removing? && op.id == id && slots == [Some(op.obs)]
  }

  /** While it is walked the list keeps its entries; off the map, it only has nulls left. */
  ghost predicate IsWalkedProperly(t: Thread, id: nat, slots: Lists.Slots) {
    && slots != [] && (Names(t.op, id) ==> t.op.Adding? || t.op.Removing?)
    && (t.mapped != Some(id) ==> Lists.Live(slots) == [] || IsLosingLast(t.op, id, slots))
  }

  /** Otherwise it has no nulls; it has an observer, or is getting one, or is about to be deleted. */
  ghost predicate IsRestingProperly(t: Thread, id: nat, slots: Lists.Slots) {
    && slots == Lists.Compacted(slots)
    && (Names(t.op, id) && (t.op.Emptied? || t.op.Deleting?) ==> slots == [])
    && if t.mapped == Some(id) then
         && (slots == [] ==> Names(t.op, id) && (t.op.Adding? || t.op.Emptied?))
         && !IsLosingLast(t.op, id, slots) && !(Names(t.op, id) && t.op.Deleting?)
       else Names(t.op, id) && (t.op.Emptied? || t.op.Deleting? || IsLosingLast(t.op, id, slots))
  }

  ghost predicate IsAlive(t: Thread, id: nat)
    requires id in t.contexts
  {
    var c := t.contexts[id];
    && id < t.next && multiset(t.freed)[id] == 0
    && c.depth == FramesOf(t.stack, id)
    && (Names(t.op, id) && t.op.Adding? ==> t.mapped == Some(id))
    && (if c.depth > 0 then IsWalkedProperly(t, id, c.slots) else IsRestingProperly(t, id, c.slots))
  }

  /** Not made yet, or deleted once; nothing refers to it. */
  ghost predicate IsGone(t: Thread, id: nat) {
    && t.mapped != Some(id) && !Names(t.op, id) && FramesOf(t.stack, id) == 0
    && multiset(t.freed)[id] == if id < t.next then 1 else 0
  }

  ghost predicate Inv(t: Thread, id: nat) {
    if id in t.contexts then IsAlive(t, id) else IsGone(t, id)
  }

  // ----------------------------------------------------------------------------------------------
  // Every step keeps it
  // ----------------------------------------------------------------------------------------------

  lemma FramesPushed(stack: seq<Frame>, f: Frame, id: nat)
    ensures FramesOf(stack + [f], id) == FramesOf(stack, id) + if f.id == id then 1 else 0
  {
    assert (stack + [f])[..|stack|] == stack;
  }

  lemma FreedCount(freed: seq<nat>, done: nat, id: nat)
    ensures multiset(freed + [done])[id] == multiset(freed)[id] + if done == id then 1 else 0
  {
  }

  lemma AddKeepsInv(t: Thread, e: Event, all: bool, id: nat)
    requires (e.StartAdd? || e.FinishAdd?) && Possible(t, e) && Inv(t, id)
    ensures Inv(Step(t, e, all), id)
  {
    if e.FinishAdd? && t.op.id == id && id in t.contexts {
      var slots := t.contexts[id].slots;
      Safety.AddedPlain(slots, t.op.obs);
      Lists.NotFound(slots, t.op.obs);
    }
  }

  lemma StartRemoveKeepsInv(t: Thread, obs: Lists.Observer, all: bool, id: nat)
    requires Possible(t, StartRemove(obs)) && Inv(t, id)
    ensures Inv(Step(t, StartRemove(obs), all), id)
  {
  }

  lemma FinishRemoveKeepsInv(t: Thread, all: bool, id: nat)
    requires Possible(t, FinishRemove) && Inv(t, id)
    ensures Inv(Step(t, FinishRemove, all), id)
  {
    if t.op.id == id && id in t.contexts {
      var c, obs := t.contexts[id], t.op.obs;
      if c.depth > 0 { RemovedWalked(c.slots, obs); } else { RemovedResting(c.slots, obs); }
    }
  }

  lemma RemovedWalked(slots: Lists.Slots, obs: Lists.Observer)
    ensures |Lists.Removed(slots, obs, true)| == |slots|
    ensures Lists.Live(slots) == [] ==> Lists.Removed(slots, obs, true) == slots
    ensures slots == [Some(obs)] ==> Lists.Live(Lists.Removed(slots, obs, true)) == []
  {
    Lists.NotFound(slots, obs);
    Lists.LiveHas(slots, obs);
    LastRemoved(obs);
  }

  lemma RemovedResting(slots: Lists.Slots, obs: Lists.Observer)
    requires slots == Lists.Compacted(slots)
    ensures Lists.Removed(slots, obs, false) == Lists.Compacted(Lists.Removed(slots, obs, false))
    ensures Lists.Removed(slots, obs, false) == [] <==> slots == [] || slots == [Some(obs)]
  {
    Safety.RemovedPlain(slots, obs);
    LastRemoved(obs);
  }

  lemma LastRemoved(obs: Lists.Observer)
    ensures Lists.Removed([Some(obs)], obs, false) == []
    ensures Lists.Removed([Some(obs)], obs, true) == [None]
    ensures Lists.Live([None]) == []
  {
    Safety.NothingLive([None]);
  }

  lemma RunTaskKeepsInv(t: Thread, k: nat, all: bool, id: nat)
    requires Possible(t, RunTask(k)) && Inv(t, id)
    ensures Inv(Step(t, RunTask(k), all), id)
  {
    if t.mapped == Some(t.tasks[k]) && t.tasks[k] in t.contexts {
      var c := t.contexts[t.tasks[k]];
      FramesPushed(t.stack, Frame(t.tasks[k], Lists.Cursor(0, MaxIndex(c.slots, all))), id);
    }
  }

  lemma GetNextKeepsInv(t: Thread, all: bool, id: nat)
    requires Possible(t, GetNext) && Inv(t, id)
    ensures Inv(Step(t, GetNext, all), id)
  {
    var top := t.stack[|t.stack| - 1];
    if top.id in t.contexts {
      var (obs, cursor) := Lists.Next(t.contexts[top.id].slots, top.cursor);
      if obs.None? {
        EndWalkKeepsInv(t, id);
      } else {
        FramesPushed(t.stack[..|t.stack| - 1], Frame(top.id, cursor), id);
      }
    }
  }

  lemma EndWalkKeepsInv(t: Thread, id: nat)
    requires t.op == Idle && t.stack != [] && t.stack[|t.stack| - 1].id in t.contexts && Inv(t, id)
    ensures Inv(EndWalk(t, t.stack[|t.stack| - 1].id), id)
  {
    if t.stack[|t.stack| - 1].id == id {
      var slots := t.contexts[id].slots;
      Safety.LiveEntries(Lists.Live(slots));
      if Lists.Live(slots) == [] { assert Lists.Compacted(slots) == []; }
    }
  }

  lemma DeleteKeepsInv(t: Thread, e: Event, all: bool, id: nat)
    requires (e.EraseEmptied? || e.Delete?) && Possible(t, e) && Inv(t, id)
    ensures Inv(Step(t, e, all), id)
  {
    FreedCount(t.freed, t.op.id, id);
  }

  lemma StepKeepsInv(t: Thread, e: Event, all: bool, id: nat)
    requires Possible(t, e) && Inv(t, id)
    ensures Inv(Step(t, e, all), id)
  {
    if e.StartAdd? || e.FinishAdd? { AddKeepsInv(t, e, all, id); }
    else if e.StartRemove? { StartRemoveKeepsInv(t, e.obs, all, id); }
    else if e.FinishRemove? { FinishRemoveKeepsInv(t, all, id); }
    else if e.RunTask? { RunTaskKeepsInv(t, e.k, all, id); }
    else if e.GetNext? { GetNextKeepsInv(t, all, id); }
    else if e.EraseEmptied? || e.Delete? { DeleteKeepsInv(t, e, all, id); }
  }

  // ----------------------------------------------------------------------------------------------
  // Whole runs
  // ----------------------------------------------------------------------------------------------

  lemma {:induction false} PostedToAll(threads: seq<Thread>, all: bool)
    ensures |PostToAll(threads, all)| == |threads|
    ensures forall i :: 0 <= i < |threads| ==> PostToAll(threads, all)[i] == Step(threads[i], Post, all)
    decreases threads
  {
    if threads != [] { PostedToAll(threads[1..], all); }
  }

  lemma {:induction false} AllStart(n: nat)
    ensures |Started(n)| == n && forall i :: 0 <= i < n ==> Started(n)[i] == START
  {
    if n > 0 { AllStart(n - 1); }
  }

  lemma {:induction false} RunKeepsInv(threads: seq<Thread>, events: seq<SystemEvent>, all: bool, i: nat, id: nat)
    requires CanRun(threads, events, all) && i < |threads| && Inv(threads[i], id)
    ensures i < |Run(threads, events, all)| && Inv(Run(threads, events, all)[i], id)
    decreases events
  {
    if events != [] {
      var e := events[0];
      if e.Notify? {
        PostedToAll(threads, all);
        StepKeepsInv(threads[i], Post, all, id);
      } else if e.thread == i {
        StepKeepsInv(threads[i], e.event, all, id);
      }
      RunKeepsInv(SystemStep(threads, e, all), events[1..], all, i, id);
    }
  }

  /** The thread's part of what is reached from a fresh list. */
  ghost predicate IsReached(t: Thread, n: nat, events: seq<SystemEvent>, all: bool, i: nat) {
    && CanRun(Started(n), events, all) && i < n
    && i < |Run(Started(n), events, all)| && t == Run(Started(n), events, all)[i]
  }

  lemma ReachedInv(t: Thread, n: nat, events: seq<SystemEvent>, all: bool, i: nat, id: nat)
    requires IsReached(t, n, events, all, i)
    ensures Inv(t, id)
  {
    AllStart(n);
    RunKeepsInv(Started(n), events, all, i, id);
  }

  /** In every reachable state, every step of every thread uses only contexts that have not been deleted. */
  lemma NoDeletedContextIsUsed(t: Thread, n: nat, events: seq<SystemEvent>, all: bool, i: nat, e: Event)
    requires IsReached(t, n, events, all, i) && Possible(t, e)
    ensures Touched(t, e).Some? ==> Touched(t, e).value in t.contexts && Touched(t, e).value !in t.freed
  {
    if Touched(t, e).Some? {
      var id := Touched(t, e).value;
      ReachedInv(t, n, events, all, i, id);
      if e.GetNext? { assert FramesOf(t.stack, id) > 0; }
    }
  }

  /** A context is deleted at most once; and one that has been made is there until it has been deleted. */
  lemma ContextsAreFreedOnce(t: Thread, n: nat, events: seq<SystemEvent>, all: bool, i: nat, id: nat)
    requires IsReached(t, n, events, all, i)
    ensures multiset(t.freed)[id] <= 1
    ensures id < t.next ==> (id in t.contexts <==> id !in t.freed)
  {
    ReachedInv(t, n, events, all, i, id);
  }

  /** Between top-level operations a context in the map has an observer, and no other context is left over. */
  lemma MappedContextHasObserver(t: Thread, n: nat, events: seq<SystemEvent>, all: bool, i: nat, id: nat)
    requires IsReached(t, n, events, all, i) && t.op == Idle && t.stack == []
    ensures id in t.contexts <==> t.mapped == Some(id)
    ensures t.mapped == Some(id) ==> Lists.Live(t.contexts[id].slots) != []
  {
    ReachedInv(t, n, events, all, i, id);
  }

  /** Once nothing refers to the list, its destructor deletes exactly what has not been deleted yet. */
  lemma DestructorFreesTheRest(t: Thread, n: nat, events: seq<SystemEvent>, all: bool, i: nat, id: nat)
    requires IsReached(t, n, events, all, i) && IsUnreferenced(t)
    ensures id !in Destroyed(t).contexts
    ensures multiset(Destroyed(t).freed)[id] == if id < t.next then 1 else 0
  {
    ReachedInv(t, n, events, all, i, id);
    MappedContextHasObserver(t, n, events, all, i, id);
    if t.mapped.Some? { FreedCount(t.freed, t.mapped.value, id); }
  }
}
