/** base/observer_list.h's classes: the loops over the vector, and the iterator with its index. */
module ObserverListClass {
  import opened Basics
  import opened ObserverLists

  class ObserverListBase {
    var observers: Slots
    var notifyDepth: nat
    const notifyAll: bool

    constructor (notifyAll: bool)
      ensures observers == [] && notifyDepth == 0 && this.notifyAll == notifyAll
    {
      observers := [];
      notifyDepth := 0;
      this.notifyAll := notifyAll;
    }

    method FindObserver(obs: Observer) returns (i: nat)
      ensures i == Find(observers, obs)
    {
      i := 0;
      while i < |observers| && observers[i] != Some(obs)
        invariant i <= |observers| && Find(observers, obs) == i + Find(observers[i..], obs)
      {
        i := i + 1;
      }
    }

    /** An observer that is already there is not added again. */
    method AddObserver(obs: Observer)
      modifies this
      ensures observers == Added(old(observers), obs) && notifyDepth == old(notifyDepth)
    {
      var i := FindObserver(obs);
      if i != |observers| {
        return;
      }
      observers := observers + [Some(obs)];
    }

    method RemoveObserver(obs: Observer)
      modifies this
      ensures observers == Removed(old(observers), obs, notifyDepth != 0) && notifyDepth == old(notifyDepth)
    {
      var i := FindObserver(obs);
      if i != |observers| {
        if notifyDepth != 0 {
          observers := observers[i := None];
        } else {
          observers := observers[..i] + observers[i + 1..];
        }
      }
    }

    method HasObserver(obs: Observer) returns (r: bool)
      ensures r <==> obs in Live(observers)
    {
      LiveHas(observers, obs);
      var i := 0;
      while i < |observers|
        invariant i <= |observers|
        invariant forall k :: 0 <= k < i ==> observers[k] != Some(obs)
      {
        if observers[i] == Some(obs) {
          return true;
        }
        i := i + 1;
      }
      return false;
    }

    method Clear()
      modifies this
      ensures observers == Cleared(old(observers), notifyDepth != 0) && notifyDepth == old(notifyDepth)
    {
      if notifyDepth != 0 {
        var i := 0;
        while i < |observers|
          invariant i <= |observers| == |old(observers)| && notifyDepth == old(notifyDepth)
          invariant forall k :: 0 <= k < i ==> observers[k] == None
        {
          observers := observers[i := None];
          i := i + 1;
        }
        AreNulls(observers);
      } else {
        observers := [];
      }
    }

    /** std::remove moves what is not null to the front; erase cuts off the rest. */
    method Compact()
      modifies this
      ensures observers == Compacted(old(observers)) && notifyDepth == old(notifyDepth)
    {
      var to, from := 0, 0;
      ghost var all := observers;
      while from < |observers|
        invariant to <= from <= |observers| == |all| && notifyDepth == old(notifyDepth)
        invariant observers[from..] == all[from..]
        invariant Compacted(all) == observers[..to] + Compacted(all[from..])
      {
        assert all[from..][1..] == all[from + 1..] && observers[from] == observers[from..][0] == all[from];
        CompactedFirst(all[from..]);
        if observers[from] != None {
          Regroup(observers[..to], [observers[from]], Compacted(all[from + 1..]));
          observers := observers[to := observers[from]];
          to := to + 1;
        }
        from := from + 1;
      }
      observers := observers[..to];
    }
  }

  lemma {:induction false} AreNulls(slots: Slots)
    requires forall k :: 0 <= k < |slots| ==> slots[k] == None
    ensures slots == Nulls(|slots|)
    decreases slots
  {
    if slots != [] {
      AreNulls(slots[1..]);
      assert slots == [None] + slots[1..];
    }
  }

  lemma CompactedFirst(slots: Slots)
    requires slots != []
    ensures Compacted(slots) == (if slots[0] == None then [] else [slots[0]]) + Compacted(slots[1..])
  {
    if slots[0] == None {
      assert Live(slots) == Live(slots[1..]);
      assert [] + Compacted(slots[1..]) == Compacted(slots[1..]);
    } else {
      assert Live(slots)[1..] == Live(slots[1..]);
    }
  }

  /** The source's Iterator; its constructor and destructor count the list's iterators. */
  class Iterator {
    const list: ObserverListBase
    var index: nat
    const maxIndex: Option<nat>

    constructor (list: ObserverListBase)
      modifies list
      ensures this.list == list && AsCursor() == Started(list.observers, list.notifyAll).cursor
      ensures list.observers == old(list.observers) && list.notifyDepth == old(list.notifyDepth) + 1
    {
      this.list := list;
      index := 0;
      maxIndex := if list.notifyAll then None else Some(|list.observers|);
      new;
      list.notifyDepth := list.notifyDepth + 1;
    }

    ghost function AsCursor(): Cursor
      reads this
    {
      Cursor(index, maxIndex)
    }

    method GetNext() returns (obs: Option<Observer>)
      modifies this
      ensures (obs, AsCursor()) == Next(list.observers, old(AsCursor()))
    {
      var end := if maxIndex.Some? && maxIndex.value < |list.observers| then maxIndex.value else |list.observers|;
      while index < end && list.observers[index] == None
        invariant Skip(list.observers, index, end) == Skip(list.observers, old(index), end)
      {
        index := index + 1;
      }
      if index < end {
        index := index + 1;
        return list.observers[index - 1];
      }
      return None;
    }

    /** The destructor; the last iterator to go compacts the list. */
    method Destroy()
      requires list.notifyDepth > 0
      modifies list
      ensures list.notifyDepth == old(list.notifyDepth) - 1
      ensures list.observers ==
                if list.notifyDepth == 0 then Compacted(old(list.observers)) else old(list.observers)
    {
      list.notifyDepth := list.notifyDepth - 1;
      if list.notifyDepth == 0 {
        list.Compact();
      }
    }
  }
}
