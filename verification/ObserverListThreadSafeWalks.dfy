/** A walk that callbacks, other walks and posts come in between of, from its start to its end. */
module ObserverListThreadSafeWalks {
  import opened Basics
  import Lists = ObserverLists
  import opened ObserverListThreadSafe
  import Safety = ObserverListSafety
  import opened ObserverListThreadSafeProofs
  import opened ObserverListThreadSafeRemoval

  // ----------------------------------------------------------------------------------------------
  // What a thread does, one event after another
  // ----------------------------------------------------------------------------------------------

  predicate CanDo(t: Thread, events: seq<Event>, all: bool)
    decreases events
  {
    events == [] || (Possible(t, events[0]) && CanDo(Step(t, events[0], all), events[1..], all))
  }

  function Done(t: Thread, events: seq<Event>, all: bool): Thread
    requires CanDo(t, events, all)
    decreases events
  {
    if events == [] then t else Done(Step(t, events[0], all), events[1..], all)
  }

  /** The walk at this place of the stack is not over before the events are. */
  predicate WalksOn(t: Thread, events: seq<Event>, all: bool, place: nat)
    requires CanDo(t, events, all)
    decreases events
  {
    place < |t.stack| && (events == [] || WalksOn(Step(t, events[0], all), events[1..], all, place))
  }

  /** What the event makes that walk return. */
  function NotifiedBy(t: Thread, e: Event, place: nat): seq<Lists.Observer> {
    if e == GetNext && |t.stack| == place + 1 && t.stack[place].id in t.contexts && NextOf(t, t.stack[place]).Some?
    then [NextOf(t, t.stack[place]).value]
    else []
  }

  function Notified(t: Thread, events: seq<Event>, all: bool, place: nat): seq<Lists.Observer>
    requires CanDo(t, events, all)
    decreases events
  {
    if events == [] then []
    else NotifiedBy(t, events[0], place) + Notified(Step(t, events[0], all), events[1..], all, place)
  }

  /** The observer that the event takes off the context's list. */
  function TakenBy(t: Thread, e: Event, id: nat): set<Lists.Observer> {
    if e == FinishRemove && t.op.Removing? && t.op.id == id && id in t.contexts
       && t.op.obs in Lists.Live(t.contexts[id].slots)
    then {t.op.obs}
    else {}
  }

  function Taken(t: Thread, events: seq<Event>, all: bool, id: nat): set<Lists.Observer>
    requires CanDo(t, events, all)
    decreases events
  {
    if events == [] then {} else TakenBy(t, events[0], id) + Taken(Step(t, events[0], all), events[1..], all, id)
  }

  // ----------------------------------------------------------------------------------------------
  // The walk owes what an iterator over a list of its own would owe
  // ----------------------------------------------------------------------------------------------

  ghost predicate IsFairAt(t: Thread, all: bool, place: nat, id: nat, h: Lists.History) {
    && place < |t.stack| && t.stack[place].id == id && id in t.contexts
    && Inv(t, id) && HasNoDoubles(t, id)
    && Safety.IsFair(t.contexts[id].slots, all, Lists.Walk(t.stack[place].cursor, h))
  }

  lemma {:induction false} FramesCounted(stack: seq<Frame>, place: nat, id: nat)
    requires place < |stack| && stack[place].id == id
    ensures FramesOf(stack, id) > 0
    ensures place < |stack| - 1 && stack[|stack| - 1].id == id ==> FramesOf(stack, id) > 1
    decreases |stack|
  {
    if place < |stack| - 1 { FramesCounted(stack[..|stack| - 1], place, id); }
  }

  lemma ListChanges(t: Thread, e: Event, all: bool, id: nat)
    requires Possible(t, e) && (e.FinishAdd? || e.FinishRemove?) && t.op.id == id && id in t.contexts
    requires t.contexts[id].depth > 0
    ensures var u, slots := Step(t, e, all), t.contexts[id].slots;
            && u.stack == t.stack && id in u.contexts
            && u.contexts[id].slots ==
                 if e.FinishAdd? then Lists.Added(slots, t.op.obs) else Lists.Removed(slots, t.op.obs, true)
  {
  }

  lemma ListChangeIsFair(t: Thread, e: Event, all: bool, place: nat, id: nat, h: Lists.History)
    requires Possible(t, e) && IsFairAt(t, all, place, id, h) && (e.FinishAdd? || e.FinishRemove?) && t.op.id == id
    ensures IsFairAt(Step(t, e, all), all, place, id, h.(removed := h.removed + TakenBy(t, e, id)))
  {
    var slots, w := t.contexts[id].slots, Lists.Walk(t.stack[place].cursor, h);
    StepKeepsInv(t, e, all, id);
    StepKeepsNoDoubles(t, e, all, id);
    FramesCounted(t.stack, place, id);
    ListChanges(t, e, all, id);
    if e.FinishAdd? {
      Safety.AddIsFair(slots, all, w, t.op.obs);
      assert h.removed + {} == h.removed;
    } else {
      Safety.RemoveIsFair(slots, all, w, t.op.obs);
    }
  }

  /** A round of the walk itself, which goes on. */
  lemma OwnRoundIsFair(t: Thread, all: bool, place: nat, id: nat, h: Lists.History)
    requires Possible(t, GetNext) && IsFairAt(t, all, place, id, h) && place == |t.stack| - 1
    requires place < |Step(t, GetNext, all).stack|
    ensures IsFairAt(Step(t, GetNext, all), all, place, id, h.(heard := h.heard + NotifiedBy(t, GetNext, place)))
  {
    StepKeepsInv(t, GetNext, all, id);
    OwnRoundAdvances(t, all, place);
    Safety.NextIsFair(t.contexts[id].slots, all, Lists.Walk(t.stack[place].cursor, h));
  }

  lemma OwnRoundAdvances(t: Thread, all: bool, place: nat)
    requires Possible(t, GetNext) && place == |t.stack| - 1 < |Step(t, GetNext, all).stack|
    requires t.stack[place].id in t.contexts
    ensures var u, f := Step(t, GetNext, all), t.stack[place];
            var (obs, next) := Lists.Next(t.contexts[f.id].slots, f.cursor);
            && u.contexts == t.contexts && |u.stack| == |t.stack| && u.stack[place] == Frame(f.id, next)
            && obs.Some? && NotifiedBy(t, GetNext, place) == [obs.value]
  {
  }

  /** A round of a walk nested in it, perhaps over the same list. */
  lemma NestedRoundIsFair(t: Thread, all: bool, place: nat, id: nat, h: Lists.History)
    requires Possible(t, GetNext) && IsFairAt(t, all, place, id, h) && place < |t.stack| - 1
    ensures IsFairAt(Step(t, GetNext, all), all, place, id, h)
  {
    StepKeepsInv(t, GetNext, all, id);
    FramesCounted(t.stack, place, id);
    NestedRoundLeaves(t, all, place, id);
  }

  lemma NestedRoundLeaves(t: Thread, all: bool, place: nat, id: nat)
    requires Possible(t, GetNext) && place < |t.stack| - 1 && id in t.contexts
    requires t.stack[|t.stack| - 1].id == id ==> t.contexts[id].depth > 1
    ensures var u := Step(t, GetNext, all);
            && place < |u.stack| && u.stack[place] == t.stack[place]
            && id in u.contexts && u.contexts[id].slots == t.contexts[id].slots
  {
  }

  /** All else leaves the walk and its list alone. */
  lemma OthersAreFair(t: Thread, e: Event, all: bool, place: nat, id: nat, h: Lists.History)
    requires Possible(t, e) && IsFairAt(t, all, place, id, h) && e != GetNext
    requires e.FinishAdd? || e.FinishRemove? ==> t.op.id != id
    requires id in Step(t, e, all).contexts
    ensures IsFairAt(Step(t, e, all), all, place, id, h)
  {
    StepKeepsInv(t, e, all, id);
    OthersLeave(t, e, all, place, id);
  }

  lemma OthersLeave(t: Thread, e: Event, all: bool, place: nat, id: nat)
    requires Possible(t, e) && e != GetNext && place < |t.stack| && id in t.contexts && id in Step(t, e, all).contexts
    requires e.FinishAdd? || e.FinishRemove? ==> t.op.id != id
    requires e.StartAdd? ==> id < t.next
    ensures var u := Step(t, e, all);
            place < |u.stack| && u.stack[place] == t.stack[place] && u.contexts[id].slots == t.contexts[id].slots
  {
  }

  lemma StepIsFair(t: Thread, e: Event, all: bool, place: nat, id: nat, h: Lists.History)
    requires Possible(t, e) && IsFairAt(t, all, place, id, h) && place < |Step(t, e, all).stack|
    ensures IsFairAt(Step(t, e, all), all, place, id,
                     Lists.History(h.start, h.heard + NotifiedBy(t, e, place), h.removed + TakenBy(t, e, id)))
  {
    assert h.heard + [] == h.heard && h.removed + {} == h.removed;
    if e == GetNext && place == |t.stack| - 1 {
      OwnRoundIsFair(t, all, place, id, h);
    } else if e == GetNext {
      NestedRoundIsFair(t, all, place, id, h);
    } else if (e.FinishAdd? || e.FinishRemove?) && t.op.id == id {
      ListChangeIsFair(t, e, all, place, id, h);
    } else {
      FramesCounted(t.stack, place, id);
      OthersAreFair(t, e, all, place, id, h);
    }
  }

  lemma {:induction false} RunIsFair(t: Thread, events: seq<Event>, all: bool, place: nat, id: nat, h: Lists.History)
    requires CanDo(t, events, all) && WalksOn(t, events, all, place) && IsFairAt(t, all, place, id, h)
    ensures IsFairAt(Done(t, events, all), all, place, id,
                     Lists.History(h.start, h.heard + Notified(t, events, all, place),
                                   h.removed + Taken(t, events, all, id)))
    decreases events
  {
    if events == [] {
      assert h.heard + [] == h.heard && h.removed + {} == h.removed;
    } else {
      var e, u := events[0], Step(t, events[0], all);
      StepIsFair(t, e, all, place, id, h);
      RunIsFair(u, events[1..], all, place, id,
                Lists.History(h.start, h.heard + NotifiedBy(t, e, place), h.removed + TakenBy(t, e, id)));
      Regroup(h.heard, NotifiedBy(t, e, place), Notified(u, events[1..], all, place));
      Safety.RegroupSets(h.removed, TakenBy(t, e, id), Taken(u, events[1..], all, id));
    }
  }

  // ----------------------------------------------------------------------------------------------
  // Main result
  // ----------------------------------------------------------------------------------------------

  /**
    A call of NotifyWrapper, from the start of its walk to the round that finds no more, with any adding,
    removing, posting and nested notification in between: but for observers that were taken off the list
    meanwhile, it has notified in order whom it owed that, which is with NOTIFY_ALL whoever is on the list
    now, and else whoever was on it at the start; and then nobody twice, and nobody else.
   */
  lemma WalkNotifiesInOrder(t: Thread, n: nat, before: seq<SystemEvent>, all: bool, i: nat, k: nat,
          events: seq<Event>)
    requires IsReached(t, n, before, all, i) && Possible(t, RunTask(k)) && t.mapped == Some(t.tasks[k])
    requires CanDo(Step(t, RunTask(k), all), events, all)
    requires WalksOn(Step(t, RunTask(k), all), events, all, |t.stack|)
    requires var u := Done(Step(t, RunTask(k), all), events, all);
             |u.stack| == |t.stack| + 1 && u.stack[|t.stack|].id in u.contexts && NextOf(u, u.stack[|t.stack|]) == None
    ensures var id, walk := t.tasks[k], Step(t, RunTask(k), all);
            var u, heard := Done(walk, events, all), Notified(walk, events, all, |t.stack|);
            var gone := Taken(walk, events, all, id);
            && id in t.contexts && id in u.contexts
            && var start := Lists.Live(t.contexts[id].slots);
               && Lists.Without(heard, gone) ==
                    Lists.Without(if all then Lists.Live(u.contexts[id].slots) else start, gone)
               && (!all ==> Lists.AreDistinct(heard) && Lists.Members(heard) <= Lists.Members(start))
  {
    var id, walk := t.tasks[k], Step(t, RunTask(k), all);
    var u := Done(walk, events, all);
    ReachedInv(t, n, before, all, i, id);
    AllStart(n);
    RunKeepsNoDoubles(Started(n), before, all, i, id);
    var slots := t.contexts[id].slots;
    StepKeepsInv(t, RunTask(k), all, id);
    Safety.BeginIsFair(slots, all);
    RunIsFair(walk, events, all, |t.stack|, id, Lists.History(Lists.Live(slots), [], {}));
    var heard, gone := Notified(walk, events, all, |t.stack|), Taken(walk, events, all, id);
    assert [] + heard == heard && {} + gone == gone;
    OverIsFair(u.contexts[id].slots, all,
               Lists.Walk(u.stack[|t.stack|].cursor, Lists.History(Lists.Live(slots), heard, gone)));
  }

  lemma OverIsFair(slots: Lists.Slots, all: bool, w: Lists.Walk)
    requires Safety.IsFair(slots, all, w) && Lists.Next(slots, w.cursor).0 == None
    ensures var h := w.history;
            && Lists.Without(h.heard, h.removed) ==
                 Lists.Without(if all then Lists.Live(slots) else h.start, h.removed)
            && (!all ==> Lists.AreDistinct(h.heard) && Lists.Members(h.heard) <= Lists.Members(h.start))
  {
    Safety.NextIsFirst(slots, w.cursor);
    assert w.history.heard + [] == w.history.heard;
  }
}
