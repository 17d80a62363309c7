/**
  base/observer_list.h: a vector of observers that may be changed while any number of iterators walk over
  it. A removal during a walk leaves a null entry behind, and the last iterator to go compacts the vector.
 */
module ObserverLists {
  import opened Basics

  type Observer = int

  /** The vector; None is the null pointer. */
  type Slots = seq<Option<Observer>>

  /** `maxIndex` is None for the greatest size_t, with which NOTIFY_ALL starts. */
  datatype Cursor = Cursor(index: nat, maxIndex: Option<nat>)

  // ----------------------------------------------------------------------------------------------
  // The operations as functions
  // ----------------------------------------------------------------------------------------------

  /** std::find, with the length for end(). */
  function Find(slots: Slots, obs: Observer): (i: nat)
    ensures i <= |slots| && (i < |slots| ==> slots[i] == Some(obs))
  {
    if slots == [] || slots[0] == Some(obs) then 0 else 1 + Find(slots[1..], obs)
  }

  function Added(slots: Slots, obs: Observer): Slots {
    if Find(slots, obs) < |slots| then slots else slots + [Some(obs)]
  }

  function Removed(slots: Slots, obs: Observer, walked: bool): Slots {
    var i := Find(slots, obs);
    if i == |slots| then slots
    else if walked then slots[i := None]
    else slots[..i] + slots[i + 1..]
  }

  function Nulls(n: nat): Slots {
    if n == 0 then [] else [None] + Nulls(n - 1)
  }

  function Cleared(slots: Slots, walked: bool): Slots {
    if walked then Nulls(|slots|) else []
  }

  /** The entries that are not null. */
  function Live(slots: Slots): seq<Observer> {
    if slots == [] then []
    else (if slots[0].Some? then [slots[0].value] else []) + Live(slots[1..])
  }

  function Entries(observers: seq<Observer>): Slots {
    if observers == [] then [] else [Some(observers[0])] + Entries(observers[1..])
  }

  function Members(observers: seq<Observer>): set<Observer> {
    set o | o in observers
  }

  function Compacted(slots: Slots): Slots {
    Entries(Live(slots))
  }

  function End(slots: Slots, c: Cursor): (n: nat)
    ensures n <= |slots|
  {
    if c.maxIndex.Some? && c.maxIndex.value < |slots| then c.maxIndex.value else |slots|
  }

  /** The first index from `index` on that is the end of the walk or not null. */
  function Skip(slots: Slots, index: nat, end: nat): (i: nat)
    requires end <= |slots|
    ensures index <= i && (i <= end || i == index) && (i < end ==> slots[i].Some?)
    decreases end - index
  {
    if index < end && slots[index].None? then Skip(slots, index + 1, end) else index
  }

  function Next(slots: Slots, c: Cursor): (r: (Option<Observer>, Cursor)) {
    var i := Skip(slots, c.index, End(slots, c));
    if i < End(slots, c) then (slots[i], c.(index := i + 1)) else (None, c.(index := i))
  }

  // ----------------------------------------------------------------------------------------------
  // The list and its iterators
  // ----------------------------------------------------------------------------------------------

  /**
    What has happened to one iterator: the observers at its start, those it has returned in that order,
    and those taken off the list meanwhile. None of this is in the source.
   */
  datatype History = History(start: seq<Observer>, heard: seq<Observer>, removed: set<Observer>)

  datatype Walk = Walk(cursor: Cursor, history: History)

  /** The iterators that exist, by names of their own; notify_depth_ counts them. */
  datatype State = State(slots: Slots, notifyAll: bool, walks: map<nat, Walk>)

  datatype Event =
    | AddObserver(obs: Observer)
    | RemoveObserver(obs: Observer)
    | Clear
    | Begin(id: nat)
    | GetNext(id: nat)
    | Finish(id: nat)

  predicate IsWalked(s: State) {
    s.walks != map[]
  }

  /** Iterators are named once, and used between their construction and their destruction. */
  predicate Possible(s: State, e: Event) {
    match e
    case Begin(id) => id !in s.walks
    case GetNext(id) => id in s.walks
    case Finish(id) => id in s.walks
    case _ => true
  }

  function TakenOff(w: Walk, gone: set<Observer>): Walk {
    w.(history := w.history.(removed := w.history.removed + gone))
  }

  function AllTakenOff(walks: map<nat, Walk>, gone: set<Observer>): map<nat, Walk> {
    map id | id in walks :: TakenOff(walks[id], gone)
  }

  function Started(slots: Slots, all: bool): Walk {
    Walk(Cursor(0, if all then None else Some(|slots|)), History(Live(slots), [], {}))
  }

  function Advanced(slots: Slots, w: Walk): Walk {
    var (obs, c) := Next(slots, w.cursor);
    Walk(c, if obs.None? then w.history else w.history.(heard := w.history.heard + [obs.value]))
  }

  function Step(s: State, e: Event): State
    requires Possible(s, e)
  {
    match e
    case AddObserver(obs) => s.(slots := Added(s.slots, obs))
    case RemoveObserver(obs) =>
      s.(slots := Removed(s.slots, obs, IsWalked(s)),
         walks := AllTakenOff(s.walks, if obs in Live(s.slots) then {obs} else {}))
    case Clear =>
      s.(slots := Cleared(s.slots, IsWalked(s)), walks := AllTakenOff(s.walks, Members(Live(s.slots))))
    case Begin(id) => s.(walks := s.walks[id := Started(s.slots, s.notifyAll)])
    case GetNext(id) => s.(walks := s.walks[id := Advanced(s.slots, s.walks[id])])
    case Finish(id) =>
      var left := s.walks - {id};
      s.(slots := if left == map[] then Compacted(s.slots) else s.slots, walks := left)
  }

  // ----------------------------------------------------------------------------------------------
  // The simple list it refines: no nulls, and iterators that carry what is left for them
  // ----------------------------------------------------------------------------------------------

  function Without(observers: seq<Observer>, gone: set<Observer>): seq<Observer> {
    if observers == [] then []
    else (if observers[0] in gone then [] else [observers[0]]) + Without(observers[1..], gone)
  }

  ghost predicate IsWithin(slots: Slots, c: Cursor) {
    c.index <= End(slots, c)
  }

  /** The observers that the iterator will still return if nothing changes. */
  ghost function Pending(slots: Slots, c: Cursor): seq<Observer>
    requires IsWithin(slots, c)
  {
    Live(slots[c.index..End(slots, c)])
  }

  /** What the event makes of the plain list of observers. */
  function PlainStep(live: seq<Observer>, e: Event): seq<Observer> {
    match e
    case AddObserver(obs) => if obs in live then live else live + [obs]
    case RemoveObserver(obs) => Without(live, {obs})
    case Clear => []
    case _ => live
  }

  lemma {:induction false} LiveSum(a: Slots, b: Slots)
    ensures Live(a + b) == Live(a) + Live(b)
    decreases a
  {
    if a == [] {
      assert a + b == b;
    } else {
      var first := if a[0].Some? then [a[0].value] else [];
      assert (a + b)[1..] == a[1..] + b && (a + b)[0] == a[0];
      LiveSum(a[1..], b);
      Regroup(first, Live(a[1..]), Live(b));
    }
  }

  lemma {:induction false} Skipped(slots: Slots, index: nat, end: nat)
    requires index <= end <= |slots|
    ensures Live(slots[index..Skip(slots, index, end)]) == []
    decreases end - index
  {
    var i := Skip(slots, index, end);
    if i > index {
      Skipped(slots, index + 1, end);
      assert slots[index..i][1..] == slots[index + 1..i];
    }
  }

  lemma {:induction false} NotFound(slots: Slots, obs: Observer)
    ensures Find(slots, obs) == |slots| <==> Some(obs) !in slots
    decreases slots
  {
    if slots != [] { NotFound(slots[1..], obs); }
  }

  lemma {:induction false} LiveHas(slots: Slots, obs: Observer)
    ensures obs in Live(slots) <==> Some(obs) in slots
    decreases slots
  {
    if slots != [] { LiveHas(slots[1..], obs); }
  }

  lemma {:induction false} WithoutSum(a: seq<Observer>, b: seq<Observer>, gone: set<Observer>)
    ensures Without(a + b, gone) == Without(a, gone) + Without(b, gone)
    decreases a
  {
    if a == [] {
      assert a + b == b;
    } else {
      assert (a + b)[1..] == a[1..] + b;
      WithoutSum(a[1..], b, gone);
    }
  }

  lemma {:induction false} WithoutTwice(s: seq<Observer>, a: set<Observer>, b: set<Observer>)
    ensures Without(Without(s, a), b) == Without(s, a + b)
    decreases s
  {
    if s != [] {
      WithoutTwice(s[1..], a, b);
      WithoutSum(if s[0] in a then [] else [s[0]], Without(s[1..], a), b);
      assert [s[0]][1..] == [];
    }
  }

  lemma {:induction false} WithoutNone(s: seq<Observer>, gone: set<Observer>)
    requires forall k :: 0 <= k < |s| ==> s[k] !in gone
    ensures Without(s, gone) == s
    decreases s
  {
    if s != [] {
      WithoutNone(s[1..], gone);
      assert [s[0]] + s[1..] == s;
    }
  }

  lemma {:induction false} WithoutAll(s: seq<Observer>, gone: set<Observer>)
    requires forall k :: 0 <= k < |s| ==> s[k] in gone
    ensures Without(s, gone) == []
    decreases s
  {
    if s != [] { WithoutAll(s[1..], gone); }
  }

  lemma {:induction false} WithoutHas(s: seq<Observer>, gone: set<Observer>, obs: Observer)
    ensures obs in Without(s, gone) <==> obs in s && obs !in gone
    decreases s
  {
    if s != [] { WithoutHas(s[1..], gone, obs); }
  }

  lemma {:induction false} WithoutCount(s: seq<Observer>, gone: set<Observer>, obs: Observer)
    ensures multiset(Without(s, gone))[obs] == if obs in gone then 0 else multiset(s)[obs]
    decreases s
  {
    if s != [] {
      WithoutCount(s[1..], gone, obs);
      assert s == [s[0]] + s[1..];
    }
  }

  predicate AreDistinct(s: seq<Observer>) {
    s == [] || (s[0] !in s[1..] && AreDistinct(s[1..]))
  }

  lemma {:induction false} DistinctCount(s: seq<Observer>, obs: Observer)
    requires AreDistinct(s)
    ensures multiset(s)[obs] == if obs in s then 1 else 0
    decreases s
  {
    if s != [] {
      DistinctCount(s[1..], obs);
      assert s == [s[0]] + s[1..];
    }
  }

  lemma {:induction false} DistinctSum(a: seq<Observer>, b: seq<Observer>)
    ensures AreDistinct(a + b) <==> AreDistinct(a) && AreDistinct(b) && forall o :: o in a ==> o !in b
    decreases a
  {
    if a == [] {
      assert a + b == b;
    } else {
      assert (a + b)[1..] == a[1..] + b && (a + b)[0] == a[0];
      assert a[0] in a;
      assert forall o :: o in a <==> o == a[0] || o in a[1..];
      DistinctSum(a[1..], b);
    }
  }

  lemma {:induction false} WithoutDistinct(s: seq<Observer>, gone: set<Observer>)
    requires AreDistinct(s)
    ensures AreDistinct(Without(s, gone))
    decreases s
  {
    if s != [] {
      WithoutDistinct(s[1..], gone);
      WithoutHas(s[1..], gone, s[0]);
      if s[0] !in gone { DistinctCons(s[0], Without(s[1..], gone)); }
      else { assert [] + Without(s[1..], gone) == Without(s[1..], gone); }
    }
  }

  lemma DistinctCons(o: Observer, s: seq<Observer>)
    requires AreDistinct(s) && o !in s
    ensures AreDistinct([o] + s)
  {
    assert ([o] + s)[1..] == s;
  }

  // ----------------------------------------------------------------------------------------------
  // Runs
  // ----------------------------------------------------------------------------------------------

  function Initial(notifyAll: bool): State {
    State([], notifyAll, map[])
  }

  predicate CanRun(s: State, events: seq<Event>)
    decreases events
  {
    events == [] || (Possible(s, events[0]) && CanRun(Step(s, events[0]), events[1..]))
  }

  function Run(s: State, events: seq<Event>): State
    requires CanRun(s, events)
    decreases events
  {
    if events == [] then s else Run(Step(s, events[0]), events[1..])
  }

  function PlainRun(live: seq<Observer>, events: seq<Event>): seq<Observer>
    decreases events
  {
    if events == [] then live else PlainRun(PlainStep(live, events[0]), events[1..])
  }
}
