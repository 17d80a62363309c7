/**
  base/observer_list_threadsafe.h as one thread executes it: each method runs from its first step to its
  last, and is proved to take the steps of ObserverListThreadSafe.
 */
module ObserverListThreadSafeClass {
  import opened Basics
  import Lists = ObserverLists
  import opened ObserverListThreadSafe

  /** The entry of one thread in the shared map, its contexts, and its calls of NotifyWrapper. */
  class ThreadContexts {
    var mapped: Option<nat>
    var contexts: map<nat, Context>
    var next: nat
    var freed: seq<nat>
    var stack: seq<Frame>
    var tasks: seq<nat>
    const all: bool

    constructor (all: bool)
      ensures AsThread(Idle) == START && this.all == all
    {
      mapped, contexts, next, freed, stack, tasks := None, map[], 0, [], [], [];
      this.all := all;
    }

    /** The thread, with what it has yet to do. */
    ghost function AsThread(op: Op): Thread
      reads this
    {
      Thread(mapped, contexts, next, freed, stack, op, tasks)
    }

    method AddObserver(obs: Lists.Observer)
      requires mapped.Some? ==> mapped.value in contexts
      modifies this
      ensures AsThread(Idle) == Step(Step(old(AsThread(Idle)), StartAdd(obs), all), FinishAdd, all)
    {
      var id;
      if mapped.None? {
        id := next;
        contexts := contexts[id := Context([], 0)];
        mapped := Some(id);
        next := next + 1;
      } else {
        id := mapped.value;
      }
      var c := contexts[id];
      contexts := contexts[id := c.(slots := Lists.Added(c.slots, obs))];
    }

    /** The context is deleted here if its list is empty, and that it only is outside notifications. */
    method RemoveObserver(obs: Lists.Observer)
      requires mapped.Some? ==> mapped.value in contexts
      modifies this
      ensures mapped == old(mapped) || mapped.None?
      ensures var started := Step(old(AsThread(Idle)), StartRemove(obs), all);
              if !started.op.Removing? then AsThread(Idle) == started
              else
                var removed := Step(started, FinishRemove, all);
                AsThread(Idle) == if removed.op.Deleting? then Step(removed, Delete, all) else removed
    {
      if mapped.None? {
        return;
      }
      var id := mapped.value;
      var c := contexts[id];
      if Some(obs) in c.slots && |c.slots| == 1 {
        mapped := None;
      }
      var slots := Lists.Removed(c.slots, obs, c.depth > 0);
      contexts := contexts[id := c.(slots := slots)];
      if |slots| == 0 {
        contexts := contexts - {id};
        freed := freed + [id];
      }
    }

    /** Posts a NotifyWrapper call to this thread's loop, if the thread has a context. */
    method Notify()
      requires mapped.Some? ==> mapped.value in contexts
      modifies this
      ensures AsThread(Idle) == Step(old(AsThread(Idle)), Post, all)
    {
      if mapped.Some? {
        tasks := tasks + [mapped.value];
      }
    }

    /** Runs a posted NotifyWrapper call up to its loop; a context that is no longer mapped is not looked at. */
    method BeginNotifyWrapper(k: nat) returns (walking: bool)
      requires k < |tasks| && (mapped.Some? ==> mapped.value in contexts)
      modifies this
      ensures walking == (old(mapped) == Some(old(tasks)[k]))
      ensures AsThread(Idle) == Step(old(AsThread(Idle)), RunTask(k), all)
    {
      var id := tasks[k];
      tasks := tasks[..k] + tasks[k + 1..];
      if mapped != Some(id) {
        return false;
      }
      var c := contexts[id];
      contexts := contexts[id := c.(depth := c.depth + 1)];
      stack := stack + [Frame(id, Lists.Cursor(0, MaxIndex(c.slots, all)))];
      return true;
    }

    /** One round of the loop; when it finds no observer, the rest of NotifyWrapper. */
    method ContinueNotifyWrapper() returns (obs: Option<Lists.Observer>)
      requires stack != [] && stack[|stack| - 1].id in contexts
      modifies this
      ensures var t := Step(old(AsThread(Idle)), GetNext, all);
              AsThread(Idle) ==
                if t.op.Emptied? then Step(Step(t, EraseEmptied, all), Delete, all) else t
      ensures var top := old(stack)[|old(stack)| - 1];
              obs == Lists.Next(old(contexts)[top.id].slots, top.cursor).0
    {
      var top := stack[|stack| - 1];
      var c := contexts[top.id];
      var (found, cursor) := Lists.Next(c.slots, top.cursor);
      obs := found;
      if obs.Some? {
        stack := stack[..|stack| - 1] + [Frame(top.id, cursor)];
      } else {
        EndNotifyWrapper(top.id);
      }
    }

    /** The iterator's destructor, and the deletion of a context that has become empty. */
    method EndNotifyWrapper(id: nat)
      requires stack != [] && id in contexts
      modifies this
      ensures var t := EndWalk(old(AsThread(Idle)), id);
              AsThread(Idle) == if t.op.Emptied? then Step(Step(t, EraseEmptied, all), Delete, all) else t
    {
      var c := contexts[id];
      var depth := if c.depth > 0 then c.depth - 1 else 0;
      var slots := if depth == 0 then Lists.Compacted(c.slots) else c.slots;
      stack := stack[..|stack| - 1];
      contexts := contexts[id := Context(slots, depth)];
      if |slots| == 0 {
        if mapped == Some(id) {
          mapped := None;
        }
        contexts := contexts - {id};
        freed := freed + [id];
      }
    }

    /** The destructor. */
    method Destroy()
      modifies this
      ensures AsThread(Idle) == Destroyed(old(AsThread(Idle)))
    {
      if mapped.Some? {
        contexts := contexts - {mapped.value};
        freed := freed + [mapped.value];
        mapped := None;
      }
    }
  }
}
