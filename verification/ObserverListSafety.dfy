/** What every operation on an observer list keeps, and what that means over whole runs. */
module ObserverListSafety {
  import opened Basics
  import opened ObserverLists

  // ----------------------------------------------------------------------------------------------
  // Invariants
  // ----------------------------------------------------------------------------------------------

  /** No observer is entered twice. */
  ghost predicate AreUnique(slots: Slots) {
    AreDistinct(Live(slots))
  }

  /** What the walk owes: with NOTIFY_ALL whoever is on the list, else whoever was at its start. */
  ghost function Owed(slots: Slots, all: bool, w: Walk): seq<Observer> {
    if all then Live(slots) else w.history.start
  }

  /** Those returned so far, and those still to come. */
  ghost function Told(slots: Slots, w: Walk): seq<Observer>
    requires IsWithin(slots, w.cursor)
  {
    w.history.heard + Pending(slots, w.cursor)
  }

  /**
    Apart from observers removed during the walk, those returned so far and those still to come are, in
    this order and once each, those that are owed.
   */
  ghost predicate IsFair(slots: Slots, all: bool, w: Walk) {
    var c, h := w.cursor, w.history;
    && IsWithin(slots, c) && (c.maxIndex.None? <==> all) && (c.maxIndex.Some? ==> c.maxIndex.value <= |slots|)
    && Without(Told(slots, w), h.removed) == Without(Owed(slots, all, w), h.removed)
    && (!all ==> AreDistinct(Told(slots, w)) && Members(Told(slots, w)) <= Members(h.start))
    && AreDistinct(h.start) && Stays(slots, h)
  }

  /** Whoever was there at the start and has not been removed is still there. */
  ghost predicate Stays(slots: Slots, h: History) {
    Members(h.start) - h.removed <= Members(Live(slots))
  }

  /** The iterator of that name, while there is one, is fair. */
  ghost predicate Fair(s: State, id: nat) {
    id in s.walks ==> IsFair(s.slots, s.notifyAll, s.walks[id])
  }

  ghost predicate Inv(s: State) {
    AreUnique(s.slots) && (!IsWalked(s) ==> s.slots == Compacted(s.slots))
  }

  // ----------------------------------------------------------------------------------------------
  // Slots
  // ----------------------------------------------------------------------------------------------

  lemma OnlyAt(slots: Slots, i: nat, obs: Observer)
    requires AreUnique(slots) && i < |slots| && slots[i] == Some(obs)
    ensures Some(obs) !in slots[..i] && Some(obs) !in slots[i + 1..]
  {
    var one: Slots := [Some(obs)];
    assert slots == slots[..i] + (one + slots[i + 1..]);
    assert Live(one) == [obs] by { assert one[1..] == []; }
    LiveSum(slots[..i], one + slots[i + 1..]);
    LiveSum(one, slots[i + 1..]);
    DistinctSum(Live(slots[..i]), [obs] + Live(slots[i + 1..]));
    DistinctSum([obs], Live(slots[i + 1..]));
    LiveHas(slots[..i], obs);
    LiveHas(slots[i + 1..], obs);
  }

  lemma {:induction false} LiveEntries(observers: seq<Observer>)
    ensures Live(Entries(observers)) == observers
    ensures |Entries(observers)| == |observers|
    ensures forall k :: 0 <= k < |observers| ==> Entries(observers)[k] == Some(observers[k])
    decreases observers
  {
    if observers != [] { LiveEntries(observers[1..]); }
  }

  lemma {:induction false} LiveNulls(n: nat)
    ensures |Nulls(n)| == n && forall k :: 0 <= k < n ==> Nulls(n)[k] == None
  {
    if n > 0 { LiveNulls(n - 1); }
  }

  lemma {:induction false} NothingLive(slots: Slots)
    requires forall k :: 0 <= k < |slots| ==> slots[k] == None
    ensures Live(slots) == []
    decreases slots
  {
    if slots != [] { NothingLive(slots[1..]); }
  }

  lemma LiveWithout(slots: Slots, obs: Observer)
    requires Some(obs) !in slots
    ensures Without(Live(slots), {obs}) == Live(slots)
  {
    LiveHas(slots, obs);
    WithoutNone(Live(slots), {obs});
  }

  /** Taking one entry out of a stretch of slots, whether a null is left behind or not. */
  lemma LiveTakenOut(before: Slots, obs: Observer, after: Slots, left: Slots)
    requires Some(obs) !in before && Some(obs) !in after && Live(left) == []
    ensures Live(before + left + after) == Without(Live(before + [Some(obs)] + after), {obs})
  {
    var one: Slots := [Some(obs)];
    assert Live(one) == [obs] by { assert one[1..] == []; }
    LiveSum(before + one, after);
    LiveSum(before, one);
    LiveSum(before + left, after);
    LiveSum(before, left);
    LiveWithout(before, obs);
    LiveWithout(after, obs);
    WithoutSum(Live(before) + [obs], Live(after), {obs});
    WithoutSum(Live(before), [obs], {obs});
    assert Without([obs], {obs}) == [] by { assert [obs][1..] == []; }
    assert Live(before) + [] == Live(before);
  }

  lemma NulledStretch(slots: Slots, i: nat, obs: Observer, from: nat, to: nat)
    requires AreUnique(slots) && i < |slots| && slots[i] == Some(obs) && from <= to <= |slots|
    ensures Live(slots[i := None][from..to]) == Without(Live(slots[from..to]), {obs})
  {
    OnlyAt(slots, i, obs);
    assert forall k :: 0 <= k < i ==> slots[k] == slots[..i][k];
    assert forall k :: i < k < |slots| ==> slots[k] == slots[i + 1..][k - i - 1];
    if from <= i < to {
      var before, after := slots[from..i], slots[i + 1..to];
      assert slots[from..to] == before + [Some(obs)] + after;
      assert slots[i := None][from..to] == before + [None] + after;
      assert Live([None]) == [] by { NothingLive([None]); }
      LiveTakenOut(before, obs, after, [None]);
    } else {
      assert slots[i := None][from..to] == slots[from..to];
      LiveWithout(slots[from..to], obs);
    }
  }

  lemma RemovedLive(slots: Slots, obs: Observer, walked: bool)
    requires AreUnique(slots)
    ensures Live(Removed(slots, obs, walked)) == Without(Live(slots), {obs})
    ensures AreUnique(Removed(slots, obs, walked))
  {
    var i := Find(slots, obs);
    NotFound(slots, obs);
    if i == |slots| {
      LiveWithout(slots, obs);
    } else if walked {
      NulledStretch(slots, i, obs, 0, |slots|);
      assert slots[0..|slots|] == slots && slots[i := None][0..|slots|] == slots[i := None];
    } else {
      OnlyAt(slots, i, obs);
      assert slots == slots[..i] + [Some(obs)] + slots[i + 1..];
      LiveTakenOut(slots[..i], obs, slots[i + 1..], []);
      assert slots[..i] + [] + slots[i + 1..] == slots[..i] + slots[i + 1..];
    }
    WithoutDistinct(Live(slots), {obs});
  }

  lemma AddedLive(slots: Slots, obs: Observer)
    requires AreUnique(slots)
    ensures Live(Added(slots, obs)) == PlainStep(Live(slots), AddObserver(obs))
    ensures AreUnique(Added(slots, obs))
  {
    LiveHas(slots, obs);
    NotFound(slots, obs);
    LiveSum(slots, [Some(obs)]);
    assert Live([Some(obs)]) == [obs] by { assert [Some(obs)][1..] == []; }
    DistinctSum(Live(slots), [obs]);
  }

  lemma EntriesUnique(observers: seq<Observer>)
    requires AreDistinct(observers)
    ensures AreUnique(Entries(observers))
  {
    LiveEntries(observers);
  }

  // ----------------------------------------------------------------------------------------------
  // What one event does to one walk
  // ----------------------------------------------------------------------------------------------

  lemma PushedPending(slots: Slots, c: Cursor, obs: Observer)
    requires IsWithin(slots, c) && (c.maxIndex.Some? ==> c.maxIndex.value <= |slots|)
    ensures var more := slots + [Some(obs)];
            IsWithin(more, c) && Pending(more, c) == Pending(slots, c) + if c.maxIndex.None? then [obs] else []
  {
    var more := slots + [Some(obs)];
    if c.maxIndex.None? {
      assert more[c.index..|more|] == slots[c.index..|slots|] + [Some(obs)];
      LiveSum(slots[c.index..|slots|], [Some(obs)]);
      assert Live([Some(obs)]) == [obs] by { assert [Some(obs)][1..] == []; }
    } else {
      assert more[c.index..End(slots, c)] == slots[c.index..End(slots, c)];
      assert Pending(slots, c) + [] == Pending(slots, c);
    }
  }

  lemma AddIsFair(slots: Slots, all: bool, w: Walk, obs: Observer)
    requires AreUnique(slots) && IsFair(slots, all, w)
    ensures IsFair(Added(slots, obs), all, w)
  {
    if Find(slots, obs) == |slots| {
      var told, removed := Told(slots, w), w.history.removed;
      var p := Pending(slots, w.cursor);
      PushedPending(slots, w.cursor, obs);
      LiveHas(slots, obs);
      NotFound(slots, obs);
      AddedLive(slots, obs);
      if all {
        Regroup(w.history.heard, p, [obs]);
        WithoutSum(told, [obs], removed);
        WithoutSum(Live(slots), [obs], removed);
      } else {
        assert p + [] == p;
      }
    }
  }

  /** Observers that leave what is pending, and the list, are counted among the removed. */
  lemma TakenOffIsFair(heard: seq<Observer>, pending: seq<Observer>, owed: seq<Observer>, left: seq<Observer>,
          removed: set<Observer>, gone: set<Observer>)
    requires Without(heard + pending, removed) == Without(owed, removed)
    requires left == owed || left == Without(owed, gone)
    ensures Without(heard + Without(pending, gone), removed + gone) == Without(left, removed + gone)
  {
    var both := removed + gone;
    WithoutSum(heard, pending, both);
    WithoutSum(heard, Without(pending, gone), both);
    WithoutTwice(pending, gone, both);
    assert gone + both == both;
    WithoutTwice(heard + pending, removed, gone);
    WithoutTwice(owed, removed, gone);
    WithoutTwice(owed, gone, both);
  }

  lemma StillDistinct(heard: seq<Observer>, pending: seq<Observer>, gone: set<Observer>)
    ensures Members(heard + Without(pending, gone)) <= Members(heard + pending)
    ensures AreDistinct(heard + pending) ==> AreDistinct(heard + Without(pending, gone))
  {
    forall o ensures o in Without(pending, gone) <==> o in pending && o !in gone { WithoutHas(pending, gone, o); }
    DistinctSum(heard, pending);
    if AreDistinct(pending) { WithoutDistinct(pending, gone); }
    DistinctSum(heard, Without(pending, gone));
  }

  lemma StillThere(live: seq<Observer>, start: seq<Observer>, removed: set<Observer>, gone: set<Observer>)
    requires Members(start) - removed <= Members(live)
    ensures Members(start) - (removed + gone) <= Members(Without(live, gone))
  {
    forall o | o in Members(live) && o !in gone ensures o in Members(Without(live, gone)) { WithoutHas(live, gone, o); }
  }

  lemma RemoveIsFair(slots: Slots, all: bool, w: Walk, obs: Observer)
    requires AreUnique(slots) && IsFair(slots, all, w)
    ensures IsFair(Removed(slots, obs, true), all, TakenOff(w, if obs in Live(slots) then {obs} else {}))
  {
    var i, left := Find(slots, obs), Removed(slots, obs, true);
    var c, h := w.cursor, w.history;
    LiveHas(slots, obs);
    NotFound(slots, obs);
    if i == |slots| {
      assert h.removed + {} == h.removed;
    } else {
      RemovedLive(slots, obs, true);
      NulledStretch(slots, i, obs, c.index, End(slots, c));
      TakenOffIsFair(h.heard, Pending(slots, c), Owed(slots, all, w), Owed(left, all, w), h.removed, {obs});
      StillDistinct(h.heard, Pending(slots, c), {obs});
      StillThere(Live(slots), h.start, h.removed, {obs});
    }
  }

  lemma ClearIsFair(slots: Slots, all: bool, w: Walk)
    requires IsFair(slots, all, w)
    ensures IsFair(Cleared(slots, true), all, TakenOff(w, Members(Live(slots))))
  {
    var c, h, gone := w.cursor, w.history, Members(Live(slots));
    var left := Cleared(slots, true);
    LiveNulls(|slots|);
    NothingLive(left);
    NothingLive(left[c.index..End(left, c)]);
    var p := Pending(slots, c);
    PendingIsLive(slots, c);
    WithoutAll(p, gone);
    WithoutAll(Live(slots), gone);
    TakenOffIsFair(h.heard, p, Owed(slots, all, w), Owed(left, all, w), h.removed, gone);
    StillDistinct(h.heard, p, gone);
    StillThere(Live(slots), h.start, h.removed, gone);
  }

  /** Only observers on the list are pending. */
  lemma PendingIsLive(slots: Slots, c: Cursor)
    requires IsWithin(slots, c)
    ensures forall o :: o in Pending(slots, c) ==> o in Live(slots)
    ensures forall k :: 0 <= k < |Pending(slots, c)| ==> Pending(slots, c)[k] in Live(slots)
  {
    var window := slots[c.index..End(slots, c)];
    forall o | o in Pending(slots, c) ensures o in Live(slots) {
      LiveHas(window, o);
      LiveHas(slots, o);
    }
  }

  /** GetNext returns the first pending observer and leaves the others, or finds none. */
  lemma NextIsFirst(slots: Slots, c: Cursor)
    requires IsWithin(slots, c)
    ensures var (obs, next) := Next(slots, c);
            && IsWithin(slots, next) && next.maxIndex == c.maxIndex
            && (obs.None? <==> Pending(slots, c) == [])
            && Pending(slots, c) == (if obs.None? then [] else [obs.value]) + Pending(slots, next)
  {
    var end := End(slots, c);
    var i := Skip(slots, c.index, end);
    var nulls := slots[c.index..i];
    Skipped(slots, c.index, end);
    assert slots[c.index..end] == nulls + slots[i..end];
    LiveSum(nulls, slots[i..end]);
    if i < end { assert slots[i..end][1..] == slots[i + 1..end]; }
  }

  lemma NextIsFair(slots: Slots, all: bool, w: Walk)
    requires IsFair(slots, all, w)
    ensures IsFair(slots, all, Advanced(slots, w))
  {
    NextIsFirst(slots, w.cursor);
    var (obs, next) := Next(slots, w.cursor);
    if obs.Some? {
      assert w.history.heard + [obs.value] + Pending(slots, next) == Told(slots, w);
    }
  }

  lemma BeginIsFair(slots: Slots, all: bool)
    requires AreUnique(slots)
    ensures IsFair(slots, all, Started(slots, all))
  {
    assert slots[0..|slots|] == slots;
    assert [] + Live(slots) == Live(slots);
  }

  // ----------------------------------------------------------------------------------------------
  // Every event keeps the invariant, and refines the plain list
  // ----------------------------------------------------------------------------------------------

  /** The vector without its nulls changes as the plain list does. */
  lemma StepIsPlain(s: State, e: Event)
    requires Inv(s) && Possible(s, e)
    ensures Live(Step(s, e).slots) == PlainStep(Live(s.slots), e)
  {
    match e
    case AddObserver(obs) => AddedLive(s.slots, obs);
    case RemoveObserver(obs) => RemovedLive(s.slots, obs, IsWalked(s));
    case Clear => LiveNulls(|s.slots|); NothingLive(Cleared(s.slots, IsWalked(s)));
    case Finish(id) => CompactedIsPlain(s.slots);
    case _ =>
  }

  lemma StepKeepsInv(s: State, e: Event)
    requires Inv(s) && Possible(s, e)
    ensures Inv(Step(s, e)) && Step(s, e).notifyAll == s.notifyAll
  {
    match e {
      case AddObserver(obs) => AddedLive(s.slots, obs); AddedPlain(s.slots, obs);
      case RemoveObserver(obs) =>
        RemovedLive(s.slots, obs, IsWalked(s));
        RemovedPlain(s.slots, obs);
        AllTakenOffKeys(s.walks, if obs in Live(s.slots) then {obs} else {});
      case Clear => LiveNulls(|s.slots|); NothingLive(Cleared(s.slots, IsWalked(s)));
      case Finish(id) => CompactedIsPlain(s.slots);
      case _ =>
    }
  }

  lemma StepKeepsFair(s: State, e: Event, id: nat)
    requires Inv(s) && Possible(s, e) && Fair(s, id)
    ensures Fair(Step(s, e), id)
  {
    var t := Step(s, e);
    if id in t.walks {
      match e {
        case AddObserver(obs) => AddIsFair(s.slots, s.notifyAll, s.walks[id], obs);
        case RemoveObserver(obs) => RemoveIsFair(s.slots, s.notifyAll, s.walks[id], obs);
        case Clear => ClearIsFair(s.slots, s.notifyAll, s.walks[id]);
        case Begin(_) => BeginIsFair(s.slots, s.notifyAll);
        case GetNext(next) => if next == id { NextIsFair(s.slots, s.notifyAll, s.walks[id]); }
        case Finish(_) =>
      }
    }
  }

  lemma CompactedIsPlain(slots: Slots)
    requires AreUnique(slots)
    ensures Live(Compacted(slots)) == Live(slots)
    ensures AreUnique(Compacted(slots)) && Compacted(Compacted(slots)) == Compacted(slots)
  {
    LiveEntries(Live(slots));
    EntriesUnique(Live(slots));
  }

  lemma AllTakenOffKeys(walks: map<nat, Walk>, gone: set<Observer>)
    ensures AllTakenOff(walks, gone) == map[] <==> walks == map[]
  {
    assert AllTakenOff(walks, gone).Keys == walks.Keys;
  }

  lemma AddedPlain(slots: Slots, obs: Observer)
    ensures slots == Compacted(slots) ==> Added(slots, obs) == Compacted(Added(slots, obs))
  {
    if slots == Compacted(slots) {
      LiveEntries(Live(slots));
      NoNulls(Added(slots, obs));
    }
  }

  lemma RemovedPlain(slots: Slots, obs: Observer)
    ensures slots == Compacted(slots) ==> Removed(slots, obs, false) == Compacted(Removed(slots, obs, false))
  {
    if slots == Compacted(slots) {
      LiveEntries(Live(slots));
      NoNulls(Removed(slots, obs, false));
    }
  }

  lemma {:induction false} NoNulls(slots: Slots)
    requires forall k :: 0 <= k < |slots| ==> slots[k].Some?
    ensures slots == Compacted(slots)
    decreases slots
  {
    if slots != [] {
      NoNulls(slots[1..]);
      assert [slots[0].value][1..] == [];
      assert ([slots[0].value] + Live(slots[1..]))[1..] == Live(slots[1..]);
    }
  }

  // ----------------------------------------------------------------------------------------------
  // Whole runs
  // ----------------------------------------------------------------------------------------------

  lemma {:induction false} RunKeepsInv(s: State, events: seq<Event>, id: nat)
    requires Inv(s) && Fair(s, id) && CanRun(s, events)
    ensures var t := Run(s, events);
            && Inv(t) && Fair(t, id) && t.notifyAll == s.notifyAll
            && Live(t.slots) == PlainRun(Live(s.slots), events)
    decreases events
  {
    if events != [] {
      StepKeepsInv(s, events[0]);
      StepKeepsFair(s, events[0], id);
      StepIsPlain(s, events[0]);
      RunKeepsInv(Step(s, events[0]), events[1..], id);
    }
  }

  /**
    Whenever no iterator exists, the vector has no nulls: it is the surviving observers in the order they were
    added.
   */
  lemma UnwalkedListIsPlain(all: bool, events: seq<Event>)
    requires CanRun(Initial(all), events)
    ensures var s := Run(Initial(all), events);
            && Live(s.slots) == PlainRun([], events)
            && (!IsWalked(s) ==> s.slots == Entries(PlainRun([], events)))
  {
    RunKeepsInv(Initial(all), events, 0);
  }

  /** An iterator only ever returns an observer that is on the list then: none after its removal, unless added again. */
  lemma OnlyListedAreNotified(all: bool, events: seq<Event>, id: nat)
    requires CanRun(Initial(all), events) && id in Run(Initial(all), events).walks
    ensures var s := Run(Initial(all), events);
            var obs := Next(s.slots, s.walks[id].cursor).0;
            obs.Some? ==> obs.value in PlainRun([], events)
  {
    var s := Run(Initial(all), events);
    RunKeepsInv(Initial(all), events, id);
    NextIsListed(s.slots, s.walks[id].cursor);
  }

  lemma NextIsListed(slots: Slots, c: Cursor)
    ensures Next(slots, c).0.Some? ==> Next(slots, c).0.value in Live(slots)
  {
    var next := Next(slots, c).0;
    if next.Some? { LiveHas(slots, next.value); }
  }

  // ----------------------------------------------------------------------------------------------
  // One iterator, from its construction on
  // ----------------------------------------------------------------------------------------------

  /** What the event returns, if it is a call of GetNext on this iterator and finds an observer. */
  function ReturnedBy(s: State, e: Event, id: nat): seq<Observer>
    requires Possible(s, e)
  {
    if e == GetNext(id) && Next(s.slots, s.walks[id].cursor).0.Some?
    then [Next(s.slots, s.walks[id].cursor).0.value]
    else []
  }

  /** What the calls of GetNext on this iterator return, without the null at the end. */
  function Returned(s: State, events: seq<Event>, id: nat): seq<Observer>
    requires CanRun(s, events)
    decreases events
  {
    if events == [] then []
    else ReturnedBy(s, events[0], id) + Returned(Step(s, events[0]), events[1..], id)
  }

  /** The observers that the event takes off the plain list. */
  function Taken(live: seq<Observer>, e: Event): set<Observer> {
    match e
    case RemoveObserver(obs) => if obs in live then {obs} else {}
    case Clear => Members(live)
    case _ => {}
  }

  function TakenOffPlain(live: seq<Observer>, events: seq<Event>): set<Observer>
    decreases events
  {
    if events == [] then {} else Taken(live, events[0]) + TakenOffPlain(PlainStep(live, events[0]), events[1..])
  }

  lemma StepIsRecorded(s: State, e: Event, id: nat)
    requires Inv(s) && Possible(s, e) && id in s.walks && e != Finish(id)
    ensures id in Step(s, e).walks
    ensures var h := s.walks[id].history;
            Step(s, e).walks[id].history ==
              History(h.start, h.heard + ReturnedBy(s, e, id), h.removed + Taken(Live(s.slots), e))
  {
    var h := s.walks[id].history;
    assert h.heard + [] == h.heard && h.removed + {} == h.removed;
  }

  lemma RegroupSets<T>(a: set<T>, b: set<T>, c: set<T>)
    ensures a + (b + c) == a + b + c
  {
  }

  /** The history of an iterator is what has happened to it and to the plain list since. */
  lemma {:induction false} RunIsRecorded(s: State, events: seq<Event>, id: nat)
    requires Inv(s) && Fair(s, id) && CanRun(s, events) && id in s.walks && Finish(id) !in events
    ensures id in Run(s, events).walks
    ensures var h := s.walks[id].history;
            Run(s, events).walks[id].history ==
              History(h.start, h.heard + Returned(s, events, id), h.removed + TakenOffPlain(Live(s.slots), events))
    decreases events
  {
    var h := s.walks[id].history;
    if events == [] {
      assert h.heard + [] == h.heard && h.removed + {} == h.removed;
    } else {
      var e, t := events[0], Step(s, events[0]);
      StepIsRecorded(s, e, id);
      StepKeepsInv(s, e);
      StepKeepsFair(s, e, id);
      StepIsPlain(s, e);
      RunIsRecorded(t, events[1..], id);
      Regroup(h.heard, ReturnedBy(s, e, id), Returned(t, events[1..], id));
      RegroupSets(h.removed, Taken(Live(s.slots), e), TakenOffPlain(Live(t.slots), events[1..]));
    }
  }

  /** What is known of an iterator that was made after `before` and has not been destroyed in `after`. */
  ghost predicate IsIterated(all: bool, before: seq<Event>, id: nat, after: seq<Event>) {
    && CanRun(Initial(all), before) && Possible(Run(Initial(all), before), Begin(id))
    && CanRun(Step(Run(Initial(all), before), Begin(id)), after) && Finish(id) !in after
  }

  function Begun(all: bool, before: seq<Event>, id: nat): State
    requires CanRun(Initial(all), before) && Possible(Run(Initial(all), before), Begin(id))
  {
    Step(Run(Initial(all), before), Begin(id))
  }

  lemma IteratedHistory(all: bool, before: seq<Event>, id: nat, after: seq<Event>)
    requires IsIterated(all, before, id, after)
    ensures var t := Run(Begun(all, before, id), after);
            var start := PlainRun([], before);
            && Inv(t) && Fair(t, id) && t.notifyAll == all && Live(t.slots) == PlainRun(start, after)
            && id in t.walks
            && t.walks[id].history ==
                 History(start, Returned(Begun(all, before, id), after, id), TakenOffPlain(start, after))
  {
    BegunIsFresh(all, before, id);
    var b := Begun(all, before, id);
    RunKeepsInv(b, after, id);
    RunIsRecorded(b, after, id);
    assert [] + Returned(b, after, id) == Returned(b, after, id);
    assert {} + TakenOffPlain(Live(b.slots), after) == TakenOffPlain(Live(b.slots), after);
  }

  lemma BegunIsFresh(all: bool, before: seq<Event>, id: nat)
    requires CanRun(Initial(all), before) && Possible(Run(Initial(all), before), Begin(id))
    ensures var b := Begun(all, before, id);
            && Inv(b) && Fair(b, id) && b.notifyAll == all && Live(b.slots) == PlainRun([], before)
            && id in b.walks && b.walks[id].history == History(PlainRun([], before), [], {})
  {
    var s := Run(Initial(all), before);
    RunKeepsInv(Initial(all), before, id);
    StepKeepsInv(s, Begin(id));
    StepKeepsFair(s, Begin(id), id);
  }

  /** The walk is over: everything it was to return it has returned. */
  ghost predicate IsOver(s: State, id: nat) {
    id in s.walks && Next(s.slots, s.walks[id].cursor).0 == None
  }

  /**
    When an iterator finds no more observers, it has returned each that was on the list when it was made
    and was not removed since exactly once; with NOTIFY_ALL also each that was added since and not removed,
    with NOTIFY_EXISTING_ONLY none that was not there when it was made, and none twice.
   */
  lemma EachIsNotifiedOnce(all: bool, before: seq<Event>, id: nat, after: seq<Event>, obs: Observer)
    requires IsIterated(all, before, id, after) && IsOver(Run(Begun(all, before, id), after), id)
    ensures var start := PlainRun([], before);
            var heard := Returned(Begun(all, before, id), after, id);
            && (obs !in TakenOffPlain(start, after) && obs in start ==> multiset(heard)[obs] == 1)
            && (obs !in TakenOffPlain(start, after) && all && obs in PlainRun(start, after) ==>
                  multiset(heard)[obs] == 1)
            && (!all ==> multiset(heard)[obs] <= if obs in start then 1 else 0)
  {
    IteratedHistory(all, before, id, after);
    FairCount(Run(Begun(all, before, id), after), id, obs);
  }

  /** And in their order: but for the removed ones, those returned are those owed, as a sequence. */
  lemma NotifiedInOrder(all: bool, before: seq<Event>, id: nat, after: seq<Event>)
    requires IsIterated(all, before, id, after) && IsOver(Run(Begun(all, before, id), after), id)
    ensures var start := PlainRun([], before);
            var gone := TakenOffPlain(start, after);
            Without(Returned(Begun(all, before, id), after, id), gone) ==
              Without(if all then PlainRun(start, after) else start, gone)
  {
    IteratedHistory(all, before, id, after);
    AllTold(Run(Begun(all, before, id), after), id);
  }

  lemma AllTold(s: State, id: nat)
    requires Fair(s, id) && IsOver(s, id)
    ensures Told(s.slots, s.walks[id]) == s.walks[id].history.heard
    ensures var h := s.walks[id].history;
            Without(h.heard, h.removed) == Without(Owed(s.slots, s.notifyAll, s.walks[id]), h.removed)
  {
    NextIsFirst(s.slots, s.walks[id].cursor);
    var heard := s.walks[id].history.heard;
    assert heard + [] == heard;
  }

  lemma FairCount(s: State, id: nat, obs: Observer)
    requires Inv(s) && Fair(s, id) && IsOver(s, id)
    ensures var h := s.walks[id].history;
            && (obs !in h.removed && obs in h.start ==> multiset(h.heard)[obs] == 1)
            && (obs !in h.removed && s.notifyAll && obs in Live(s.slots) ==> multiset(h.heard)[obs] == 1)
            && (!s.notifyAll ==> multiset(h.heard)[obs] <= if obs in h.start then 1 else 0)
  {
    var w := s.walks[id];
    var h, owed := w.history, Owed(s.slots, s.notifyAll, w);
    AllTold(s, id);
    WithoutCount(h.heard, h.removed, obs);
    WithoutCount(owed, h.removed, obs);
    DistinctCount(owed, obs);
    assert obs in h.start && obs !in h.removed ==> obs in Members(h.start) - h.removed && obs in owed;
    if !s.notifyAll {
      DistinctCount(h.heard, obs);
      assert obs in h.heard ==> obs in Members(h.heard);
    }
  }
}
