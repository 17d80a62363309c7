/**
  base/observer_list_threadsafe.h: every thread has at most one context in the shared map, with an
  ObserverList of its own. Contexts have identities that are never reused: the thread that made them and
  a serial number. Each step is what one thread does under the lock, or between two uses of it.
 */
module ObserverListThreadSafe {
  import opened Basics
  import opened ObserverLists

  /** `depth` is the list's notify_depth_: the NotifyWrapper calls that walk over it. */
  datatype Context = Context(slots: Slots, depth: nat)

  /** A NotifyWrapper call on the thread's stack, in its loop over the list. */
  datatype Frame = Frame(id: nat, cursor: Cursor)

  /** What the thread still has to do before it returns to the caller, a callback or the message loop. */
  datatype Op =
    | Idle
    | Adding(id: nat, obs: Observer)      // has found or made the context
    | Removing(id: nat, obs: Observer)    // has found the context, and may have taken it off the map
    | Emptied(id: nat)                    // the walk is over and the list empty
    | Deleting(id: nat)

  /** `freed` lists the contexts in the order they were deleted; `tasks` are the posted NotifyWrapper calls. */
  datatype Thread = Thread(
    mapped: Option<nat>,
    contexts: map<nat, Context>,
    next: nat,
    freed: seq<nat>,
    stack: seq<Frame>,
    op: Op,
    tasks: seq<nat>
  )

  datatype Event =
    | StartAdd(obs: Observer)
    | FinishAdd
    | StartRemove(obs: Observer)
    | FinishRemove
    | Post                                // Notify, on any thread
    | RunTask(k: nat)
    | GetNext
    | EraseEmptied
    | Delete

  /** A thread begins something only when it has finished what it was at; callbacks may nest. */
  predicate Possible(t: Thread, e: Event) {
    match e
    case StartAdd(_) => t.op == Idle
    case FinishAdd => t.op.Adding?
    case StartRemove(_) => t.op == Idle
    case FinishRemove => t.op.Removing?
    case Post => true
    case RunTask(k) => t.op == Idle && k < |t.tasks|
    case GetNext => t.op == Idle && t.stack != []
    case EraseEmptied => t.op.Emptied?
    case Delete => t.op.Deleting?
  }

  /** The context whose memory the step uses. */
  function Touched(t: Thread, e: Event): Option<nat>
    requires Possible(t, e)
  {
    match e
    case StartAdd(_) => t.mapped
    case FinishAdd => Some(t.op.id)
    case StartRemove(_) => t.mapped
    case FinishRemove => Some(t.op.id)
    case Post => t.mapped
    case RunTask(k) => if t.mapped == Some(t.tasks[k]) then t.mapped else None
    case GetNext => Some(t.stack[|t.stack| - 1].id)
    case EraseEmptied => None
    case Delete => Some(t.op.id)
  }

  function MaxIndex(slots: Slots, all: bool): Option<nat> {
    if all then None else Some(|slots|)
  }

  /** The end of a walk: the iterator's destructor, and the question whether the list is empty. */
  function EndWalk(t: Thread, id: nat): Thread
    requires id in t.contexts && t.stack != []
  {
    var c := t.contexts[id];
    var depth := if c.depth > 0 then c.depth - 1 else 0;
    var slots := if depth == 0 then Compacted(c.slots) else c.slots;
    t.(contexts := t.contexts[id := Context(slots, depth)],
       stack := t.stack[..|t.stack| - 1],
       op := if slots == [] then Emptied(id) else Idle)
  }

  /** A step that would use a deleted context goes nowhere. */
  function Step(t: Thread, e: Event, all: bool): Thread
    requires Possible(t, e)
  {
    if Touched(t, e).Some? && Touched(t, e).value !in t.contexts then t
    else
      match e
      case StartAdd(obs) =>
        if t.mapped.Some? then t.(op := Adding(t.mapped.value, obs))
        else
          t.(mapped := Some(t.next), contexts := t.contexts[t.next := Context([], 0)],
             next := t.next + 1, op := Adding(t.next, obs))
      case FinishAdd =>
        var c := t.contexts[t.op.id];
        t.(contexts := t.contexts[t.op.id := c.(slots := Added(c.slots, t.op.obs))], op := Idle)
      case StartRemove(obs) =>
        if t.mapped.None? then t
        else
          var id := t.mapped.value;
          var slots := t.contexts[id].slots;
          t.(mapped := if Some(obs) in slots && |slots| == 1 then None else t.mapped, op := Removing(id, obs))
      case FinishRemove =>
        var c := t.contexts[t.op.id];
        var slots := Removed(c.slots, t.op.obs, c.depth > 0);
        t.(contexts := t.contexts[t.op.id := c.(slots := slots)],
           op := if slots == [] then Deleting(t.op.id) else Idle)
      case Post => if t.mapped.Some? then t.(tasks := t.tasks + [t.mapped.value]) else t
      case RunTask(k) =>
        var id := t.tasks[k];
        var left := t.tasks[..k] + t.tasks[k + 1..];
        if t.mapped != Some(id) then t.(tasks := left)
        else
          var c := t.contexts[id];
          t.(contexts := t.contexts[id := c.(depth := c.depth + 1)],
             stack := t.stack + [Frame(id, Cursor(0, MaxIndex(c.slots, all)))], tasks := left)
      case GetNext =>
        var top := t.stack[|t.stack| - 1];
        var (obs, cursor) := Next(t.contexts[top.id].slots, top.cursor);
        if obs.None? then EndWalk(t, top.id)
        else t.(stack := t.stack[..|t.stack| - 1] + [Frame(top.id, cursor)])
      case EraseEmptied =>
        t.(mapped := if t.mapped == Some(t.op.id) then None else t.mapped, op := Deleting(t.op.id))
      case Delete =>
        t.(contexts := t.contexts - {t.op.id}, freed := t.freed + [t.op.id], op := Idle)
  }

  const START: Thread := Thread(None, map[], 0, [], [], Idle, [])

  // ----------------------------------------------------------------------------------------------
  // All threads
  // ----------------------------------------------------------------------------------------------

  /** Notify posts to every context in the map, under the lock; all else is done by one thread to itself. */
  datatype SystemEvent = Local(thread: nat, event: Event) | Notify

  predicate PossibleInSystem(threads: seq<Thread>, e: SystemEvent) {
    match e
    case Notify => true
    case Local(i, event) => i < |threads| && !event.Post? && Possible(threads[i], event)
  }

  function PostToAll(threads: seq<Thread>, all: bool): (r: seq<Thread>) {
    if threads == [] then [] else [Step(threads[0], Post, all)] + PostToAll(threads[1..], all)
  }

  function SystemStep(threads: seq<Thread>, e: SystemEvent, all: bool): seq<Thread>
    requires PossibleInSystem(threads, e)
  {
    match e
    case Notify => PostToAll(threads, all)
    case Local(i, event) => threads[i := Step(threads[i], event, all)]
  }

  predicate CanRun(threads: seq<Thread>, events: seq<SystemEvent>, all: bool)
    decreases events
  {
    events == [] ||
    (PossibleInSystem(threads, events[0]) && CanRun(SystemStep(threads, events[0], all), events[1..], all))
  }

  function Run(threads: seq<Thread>, events: seq<SystemEvent>, all: bool): seq<Thread>
    requires CanRun(threads, events, all)
    decreases events
  {
    if events == [] then threads else Run(SystemStep(threads, events[0], all), events[1..], all)
  }

  function Started(n: nat): (threads: seq<Thread>) {
    if n == 0 then [] else Started(n - 1) + [START]
  }

  /** The destructor, on what the map holds of one thread. */
  function Destroyed(t: Thread): Thread {
    if t.mapped.None? then t
    else
      t.(mapped := None, contexts := t.contexts - {t.mapped.value}, freed := t.freed + [t.mapped.value])
  }

  /** No posted task or call holds a reference to the list any more. */
  predicate IsUnreferenced(t: Thread) {
    t.op == Idle && t.stack == [] && t.tasks == []
  }
}
