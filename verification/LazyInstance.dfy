/**
  base/lazy_instance.h and .cc: any number of threads call Pointer(), which constructs the instance at
  most once. `address` is what Traits::New returns; there is no exit callback.
 */
module LazyInstances {
  const CREATING: nat := 1          // kLazyInstanceStateCreating

  /** Where a thread is in Pointer(). */
  datatype Pc =
    | Loading                       // the acquire load
    | Swapping                      // the compare-and-swap of NeedsLazyInstance
    | Spinning                      // its loop
    | Constructing                  // in Traits::New
    | Storing(value: nat)           // the release store of CompleteLazyInstance
    | Returning                     // the load in instance()
    | Returned(value: nat)

  /** `started` and `finished` count the calls of New. */
  datatype State = State(word: nat, threads: seq<Pc>, started: nat, finished: nat)

  /** No bit of the created mask, which is ~kLazyInstanceStateCreating. */
  predicate IsUncreated(word: nat) {
    word / 2 == 0
  }

  /** The next step of the thread; a thread that has returned may call again. */
  function Step(s: State, i: nat, address: nat): State
    requires i < |s.threads|
  {
    match s.threads[i]
    case Loading => s.(threads := s.threads[i := if IsUncreated(s.word) then Swapping else Returning])
    case Swapping =>
      if s.word == 0 then s.(word := CREATING, threads := s.threads[i := Constructing], started := s.started + 1)
      else s.(threads := s.threads[i := Spinning])
    case Spinning => if s.word == CREATING then s else s.(threads := s.threads[i := Returning])
    case Constructing => s.(threads := s.threads[i := Storing(address)], finished := s.finished + 1)
    case Storing(value) => s.(word := value, threads := s.threads[i := Returning])
    case Returning => s.(threads := s.threads[i := Returned(s.word)])
    case Returned(_) => s.(threads := s.threads[i := Loading])
  }

  function Initial(n: nat): State {
    State(0, seq(n, _ => Loading), 0, 0)
  }

  /** Whose turn it is, step by step. */
  predicate IsSchedule(n: nat, turns: seq<nat>) {
    forall k :: 0 <= k < |turns| ==> turns[k] < n
  }

  function Run(s: State, turns: seq<nat>, address: nat): (t: State)
    requires IsSchedule(|s.threads|, turns)
    decreases turns
  {
    if turns == [] then s
    else
      assert forall k :: 0 <= k < |turns| - 1 ==> turns[1..][k] == turns[k + 1];
      Run(Step(s, turns[0], address), turns[1..], address)
  }

  // ----------------------------------------------------------------------------------------------
  // Invariant
  // ----------------------------------------------------------------------------------------------

  predicate IsCreating(pc: Pc) {
    pc.Constructing? || pc.Storing?
  }

  /** The threads between the compare-and-swap that they have won and the store. */
  ghost function Creating(threads: seq<Pc>): nat {
    if threads == [] then 0
    else Creating(threads[..|threads| - 1]) + if IsCreating(threads[|threads| - 1]) then 1 else 0
  }

  ghost predicate Inv(s: State, address: nat) {
    && (s.word == 0 ==> s.started == 0 && Creating(s.threads) == 0)
    && (s.word == CREATING ==>
          s.started == 1 && (Creating(s.threads) == 1 || (IsStoredMarker(s, address) && Creating(s.threads) == 0)))
    && (s.word != 0 && s.word != CREATING ==>
          s.word == address && s.started == 1 && s.finished == 1 && Creating(s.threads) == 0)
    && (s.finished <= s.started)
    && forall i :: 0 <= i < |s.threads| ==> IsProper(s, s.threads[i], address)
  }

  /** An instance at address 1 is complete, but looks as if it were being created. */
  ghost predicate IsStoredMarker(s: State, address: nat) {
    address == CREATING && s.finished == 1
  }

  ghost predicate IsProper(s: State, pc: Pc, address: nat) {
    match pc
    case Constructing => s.word == CREATING && s.finished == 0
    case Storing(value) => s.word == CREATING && value == address && s.finished == 1
    case Spinning => s.word != 0
    case Returning => s.word == address && s.finished == 1
    case Returned(value) => value == address && s.word == address && s.finished == 1
    case _ => true
  }

  lemma {:induction false} CreatingUpdated(threads: seq<Pc>, i: nat, pc: Pc)
    requires i < |threads|
    ensures Creating(threads[i := pc]) ==
              Creating(threads) - (if IsCreating(threads[i]) then 1 else 0) + (if IsCreating(pc) then 1 else 0)
    decreases |threads|
  {
    var n := |threads| - 1;
    if i < n {
      assert threads[i := pc][..n] == threads[..n][i := pc];
      CreatingUpdated(threads[..n], i, pc);
    } else {
      assert threads[i := pc][..n] == threads[..n];
    }
  }

  /** Two threads at different places that create something are counted as two. */
  lemma {:induction false} CreatingCounts(threads: seq<Pc>, i: nat, j: nat)
    requires i < j < |threads|
    ensures (if IsCreating(threads[i]) then 1 else 0) + (if IsCreating(threads[j]) then 1 else 0) <= Creating(threads)
    decreases |threads|
  {
    var n := |threads| - 1;
    if j < n { CreatingCounts(threads[..n], i, j); }
    else { CreatingCountsOne(threads[..n], i); }
  }

  lemma {:induction false} CreatingCountsOne(threads: seq<Pc>, i: nat)
    requires i < |threads|
    ensures (if IsCreating(threads[i]) then 1 else 0) <= Creating(threads)
    decreases |threads|
  {
    if i < |threads| - 1 { CreatingCountsOne(threads[..|threads| - 1], i); }
  }

  lemma StepKeepsInv(s: State, i: nat, address: nat)
    requires Inv(s, address) && i < |s.threads| && address != 0
    ensures Inv(Step(s, i, address), address)
  {
    var t := Step(s, i, address);
    CreatingUpdated(s.threads, i, t.threads[i]);
    CreatingCountsOne(s.threads, i);
    assert IsProper(s, s.threads[i], address);
    forall j | 0 <= j < |s.threads| ensures IsProper(t, t.threads[j], address) {
      assert IsProper(s, s.threads[j], address);
      CreatingCountsOne(s.threads, j);
      if i < j { CreatingCounts(s.threads, i, j); }
      if j < i { CreatingCounts(s.threads, j, i); }
    }
  }

  lemma {:induction false} NoneCreating(threads: seq<Pc>)
    requires forall k :: 0 <= k < |threads| ==> threads[k] == Loading
    ensures Creating(threads) == 0
    decreases |threads|
  {
    if threads != [] { NoneCreating(threads[..|threads| - 1]); }
  }

  lemma {:induction false} RunKeepsInv(s: State, turns: seq<nat>, address: nat)
    requires Inv(s, address) && IsSchedule(|s.threads|, turns) && address != 0
    ensures Inv(Run(s, turns, address), address)
    decreases turns
  {
    if turns != [] {
      StepKeepsInv(s, turns[0], address);
      assert forall k :: 0 <= k < |turns| - 1 ==> turns[1..][k] == turns[k + 1];
      RunKeepsInv(Step(s, turns[0], address), turns[1..], address);
    }
  }

  // ----------------------------------------------------------------------------------------------
  // Main results
  // ----------------------------------------------------------------------------------------------

  /**
    For any number of threads and any schedule: New is called at most once, at most one thread is between
    the swap and the store, and every call that returns gives the one instance, fully constructed.
   */
  lemma ConstructedOnce(n: nat, turns: seq<nat>, address: nat)
    requires IsSchedule(n, turns) && address != 0
    ensures var s := Run(Initial(n), turns, address);
            && s.started <= 1 && Creating(s.threads) <= 1
            && forall i :: 0 <= i < |s.threads| && s.threads[i].Returned? ==>
                 s.threads[i].value == address && s.finished == 1
  {
    NoneCreating(Initial(n).threads);
    RunKeepsInv(Initial(n), turns, address);
    var s := Run(Initial(n), turns, address);
    forall i | 0 <= i < |s.threads| && s.threads[i].Returned?
      ensures s.threads[i].value == address && s.finished == 1
    {
      assert IsProper(s, s.threads[i], address);
    }
  }

  /** And that is so exactly if the address is not 0. */
  lemma ConstructedOnceExactlyIf(address: nat)
    ensures (forall n: nat, turns :: IsSchedule(n, turns) ==> Run(Initial(n), turns, address).started <= 1) <==>
            address != 0
  {
    if address == 0 {
      NullAddressConstructsAgain();
    } else {
      forall n: nat, turns | IsSchedule(n, turns) ensures Run(Initial(n), turns, address).started <= 1 {
        ConstructedOnce(n, turns, address);
      }
    }
  }

  /** At address 1 a thread that waits for the instance waits for good. */
  lemma {:induction false} MarkerAddressHangs(s: State, turns: seq<nat>, i: nat)
    requires Inv(s, CREATING) && IsSchedule(|s.threads|, turns) && i < |s.threads| && s.threads[i].Spinning?
    ensures i < |Run(s, turns, CREATING).threads| && Run(s, turns, CREATING).threads[i].Spinning?
    decreases turns
  {
    if turns != [] {
      assert IsProper(s, s.threads[i], CREATING);
      StepKeepsInv(s, turns[0], CREATING);
      assert forall k :: 0 <= k < |turns| - 1 ==> turns[1..][k] == turns[k + 1];
      MarkerAddressHangs(Step(s, turns[0], CREATING), turns[1..], i);
    }
  }

  /** That the address is not 0 is needed: else the next caller constructs again. */
  lemma NullAddressConstructsAgain()
    ensures IsSchedule(2, [0, 0, 0, 0, 1, 1]) && Run(Initial(2), [0, 0, 0, 0, 1, 1], 0).started == 2
  {
    var s := Initial(2);
    var s1 := Step(s, 0, 0);
    var s2 := Step(s1, 0, 0);
    var s3 := Step(s2, 0, 0);
    var s4 := Step(s3, 0, 0);
    var s5 := Step(s4, 1, 0);
    var s6 := Step(s5, 1, 0);
    assert s6.started == 2;
    RunOne(s5, 1, [], 0);
    RunOne(s4, 1, [1], 0);
    RunOne(s3, 0, [1, 1], 0);
    RunOne(s2, 0, [0, 1, 1], 0);
    RunOne(s1, 0, [0, 0, 1, 1], 0);
    RunOne(s, 0, [0, 0, 0, 1, 1], 0);
    assert [0] + [0, 0, 0, 1, 1] == [0, 0, 0, 0, 1, 1];
  }

  lemma RunOne(s: State, i: nat, turns: seq<nat>, address: nat)
    requires IsSchedule(|s.threads|, turns) && i < |s.threads|
    ensures IsSchedule(|s.threads|, [i] + turns)
    ensures Run(s, [i] + turns, address) == Run(Step(s, i, address), turns, address)
  {
    assert ([i] + turns)[1..] == turns;
  }

  // ----------------------------------------------------------------------------------------------
  // Every call returns
  // ----------------------------------------------------------------------------------------------

  /** The thread can come to the end of its call, if it and the others get their turns. */
  ghost predicate CanReturn(s: State, i: nat, address: nat) {
    exists more ::
      && IsSchedule(|s.threads|, more) && i < |Run(s, more, address).threads|
      && Run(s, more, address).threads[i] == Returned(address)
  }

  /** How many turns there are at most, of the thread or of the one that it waits for. */
  function TurnsLeft(s: State, i: nat): nat
    requires i < |s.threads|
  {
    match s.threads[i]
    case Loading => 6
    case Swapping => 5
    case Spinning => if s.word != CREATING then 2 else if s.finished == 0 then 4 else 3
    case Constructing => 3
    case Storing(_) => 2
    case Returning => 1
    case Returned(_) => 0
  }

  lemma {:induction false} CreatorExists(threads: seq<Pc>) returns (j: nat)
    requires Creating(threads) > 0
    ensures j < |threads| && IsCreating(threads[j])
    decreases |threads|
  {
    if IsCreating(threads[|threads| - 1]) { j := |threads| - 1; } else { j := CreatorExists(threads[..|threads| - 1]); }
  }

  /** The turn that brings the thread closer: its own, or that of the creator it spins for. */
  lemma TurnBringsCloser(s: State, i: nat, address: nat) returns (turn: nat)
    requires Inv(s, address) && address >= 2 && i < |s.threads| && !s.threads[i].Returned?
    ensures turn < |s.threads| && Inv(Step(s, turn, address), address)
    ensures i < |Step(s, turn, address).threads| && TurnsLeft(Step(s, turn, address), i) < TurnsLeft(s, i)
  {
    assert IsProper(s, s.threads[i], address);
    if s.threads[i].Spinning? && s.word == CREATING {
      turn := CreatorExists(s.threads);
      assert IsProper(s, s.threads[turn], address);
    } else {
      turn := i;
    }
    StepKeepsInv(s, turn, address);
  }

  lemma {:induction false} CallReturns(s: State, i: nat, address: nat) returns (more: seq<nat>)
    requires Inv(s, address) && address >= 2 && i < |s.threads|
    ensures IsSchedule(|s.threads|, more) && i < |Run(s, more, address).threads|
    ensures Run(s, more, address).threads[i] == Returned(address)
    decreases TurnsLeft(s, i)
  {
    if s.threads[i].Returned? {
      assert IsProper(s, s.threads[i], address);
      more := [];
    } else {
      var turn := TurnBringsCloser(s, i, address);
      var rest := CallReturns(Step(s, turn, address), i, address);
      more := [turn] + rest;
      RunOne(s, turn, rest, address);
    }
  }

  lemma {:induction false} RunKeepsCount(s: State, turns: seq<nat>, address: nat)
    requires IsSchedule(|s.threads|, turns)
    ensures |Run(s, turns, address).threads| == |s.threads|
    decreases turns
  {
    if turns != [] {
      assert forall k :: 0 <= k < |turns| - 1 ==> turns[1..][k] == turns[k + 1];
      RunKeepsCount(Step(s, turns[0], address), turns[1..], address);
    }
  }

  lemma ReachedInv(n: nat, turns: seq<nat>, address: nat)
    requires IsSchedule(n, turns) && address != 0
    ensures Inv(Run(Initial(n), turns, address), address) && |Run(Initial(n), turns, address).threads| == n
  {
    NoneCreating(Initial(n).threads);
    RunKeepsInv(Initial(n), turns, address);
    RunKeepsCount(Initial(n), turns, address);
  }

  /**
    From wherever a thread is in Pointer(), its call can return, and returns the instance: waiting for
    another thread comes to an end. That is so exactly if the address is not the marker's.
   */
  lemma CallsReturnExactlyIf(address: nat)
    requires address != 0
    ensures (forall n: nat, turns, i: nat :: IsSchedule(n, turns) && i < n ==>
               CanReturn(Run(Initial(n), turns, address), i, address)) <==> address != CREATING
  {
    if address == CREATING {
      var turns := [0, 0, 0, 0, 1, 1];
      var s := Run(Initial(2), turns, CREATING);
      MarkerIsStored();
      ReachedInv(2, turns, CREATING);
      forall more | IsSchedule(|s.threads|, more)
        ensures 1 < |Run(s, more, CREATING).threads| && !Run(s, more, CREATING).threads[1].Returned?
      {
        MarkerAddressHangs(s, more, 1);
      }
      assert !CanReturn(s, 1, CREATING);
      assert IsSchedule(2, turns);
    } else {
      forall n: nat, turns, i: nat | IsSchedule(n, turns) && i < n
        ensures CanReturn(Run(Initial(n), turns, address), i, address)
      {
        ReachedInv(n, turns, address);
        var more := CallReturns(Run(Initial(n), turns, address), i, address);
      }
    }
  }

  /** Thread 0 has stored address 1, and then thread 1 waits. */
  lemma MarkerIsStored()
    ensures IsSchedule(2, [0, 0, 0, 0, 1, 1])
    ensures var s := Run(Initial(2), [0, 0, 0, 0, 1, 1], CREATING); |s.threads| == 2 && s.threads[1].Spinning?
  {
    var s := Initial(2);
    var s1 := Step(s, 0, CREATING);
    var s2 := Step(s1, 0, CREATING);
    var s3 := Step(s2, 0, CREATING);
    var s4 := Step(s3, 0, CREATING);
    var s5 := Step(s4, 1, CREATING);
    assert Step(s5, 1, CREATING).threads[1].Spinning?;
    RunOne(s5, 1, [], CREATING);
    RunOne(s4, 1, [1], CREATING);
    RunOne(s3, 0, [1, 1], CREATING);
    RunOne(s2, 0, [0, 1, 1], CREATING);
    RunOne(s1, 0, [0, 0, 1, 1], CREATING);
    RunOne(s, 0, [0, 0, 0, 1, 1], CREATING);
    assert [0] + [0, 0, 0, 1, 1] == [0, 0, 0, 0, 1, 1];
  }

  /** Once the instance is created, a call takes two turns of its own, whatever the others do: it does not wait. */
  lemma CreatedIsFast(s: State, i: nat, address: nat)
    requires Inv(s, address) && address >= 2 && s.word == address && i < |s.threads| && s.threads[i].Loading?
    ensures IsSchedule(|s.threads|, [i, i])
    ensures i < |Run(s, [i, i], address).threads| && Run(s, [i, i], address).threads[i] == Returned(address)
  {
    RunOne(Step(s, i, address), i, [], address);
    RunOne(s, i, [i], address);
    assert [i] + [i] == [i, i] && [i] + [] == [i];
  }
}
