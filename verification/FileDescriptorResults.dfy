/** base/file_descriptor_shuffle.cc: when a run does what its caller asked for. */
module FileDescriptorResults {
  import opened Basics
  import opened FileDescriptorShuffle
  import opened FileDescriptorRuns

  lemma {:induction false} RememberedPrefix(extra: seq<int>, temps: seq<int>)
    requires |extra| <= MAX_EXTRA_FDS
    ensures RememberAll(extra, temps) ==
            if |extra| + |temps| <= MAX_EXTRA_FDS then extra + temps else extra + temps[..MAX_EXTRA_FDS - |extra|]
    decreases temps
  {
    if temps != [] {
      RememberedPrefix(Remember(extra, temps[0]), temps[1..]);
    }
  }

  /** The temporaries that fit into the fixed buffer of the source, and are closed at the end. */
  ghost function Kept(handed: seq<int>): set<int> {
    Elements(AtMost(handed, MAX_EXTRA_FDS))
  }

  /**
    The table after a successful run is `Final` and the elements Duplicate handed out, less the first sixteen
    of those. At most one Duplicate is made for each arc, none gives an element that is known not to be handed
    out or a second time, and Close is only ever called on an open element.
   */
  lemma RunLeavesFinalTable(arcs: seq<Arc>, w: Domain)
    requires DistinctDests(arcs) && SourcesKnown(arcs, w)
    ensures var (ok, w') := Run(arcs, w, []);
            ok ==>
              && |w'.dups| <= |w.dups| && |Handed(w, w')| <= |arcs| && NoRepeats(Handed(w, w'))
              && w'.badCloses == w.badCloses
              && SourcesOpen(arcs, w.table)
              && Settled(Final(arcs, w.table), w'.table, Elements(Handed(w, w')), Kept(Handed(w, w')))
              && forall k :: 0 <= k < |Handed(w, w')| ==>
                   var t := Handed(w, w')[k];
                   t !in w.reserved && (t in Final(arcs, w.table) ==> IsDest(arcs, t))
  {
    var (ok, w') := Run(arcs, w, []);
    if ok {
      assert Elements([]) == {};
      RunExact(arcs, w, {}, []);
      TempsDiffer(arcs, w, {}, []);
      var handed := Handed(w, w');
      RememberedPrefix([], handed);
      assert RememberAll([], handed) == AtMost(handed, MAX_EXTRA_FDS);
      assert forall k :: 0 <= k < |handed| ==> handed[k] in Elements(handed);
    }
  }

  /**
    Of the elements handed out, the first sixteen are closed in the end, and only those; so up to sixteen
    temporaries leave nothing behind.
   */
  lemma FirstSixteenAreClosed(arcs: seq<Arc>, w: Domain)
    requires DistinctDests(arcs) && SourcesKnown(arcs, w)
    ensures var (ok, w') := Run(arcs, w, []);
            ok ==>
              && |w'.dups| <= |w.dups|
              && forall k :: 0 <= k < |Handed(w, w')| ==> (Handed(w, w')[k] in w'.table <==> k >= 16)
  {
    var (ok, w') := Run(arcs, w, []);
    if ok {
      RunLeavesFinalTable(arcs, w);
      KeptAreFirst(Handed(w, w'));
    }
  }

  lemma KeptAreFirst(handed: seq<int>)
    requires NoRepeats(handed)
    ensures forall k :: 0 <= k < |handed| ==> handed[k] in Elements(handed) && (handed[k] in Kept(handed) <==> k < 16)
  {
    var kept := AtMost(handed, MAX_EXTRA_FDS);
    forall k | 0 <= k < |handed| ensures handed[k] in Elements(handed) && (handed[k] in Kept(handed) <==> k < 16) {
      if k < 16 { assert kept[k] == handed[k]; }
      if j :| 0 <= j < |kept| && kept[j] == handed[k] { assert handed[j] == handed[k]; }
    }
  }

  /** The request, read element by element. */
  ghost predicate Shuffled(arcs: seq<Arc>, before: map<int, File>, after: map<int, File>) {
    // Every destination holds the file its source held before the call.
    && (forall k :: 0 <= k < |arcs| && arcs[k].source in before ==>
          arcs[k].dest in after && after[arcs[k].dest] == before[arcs[k].source])
    // An element nobody writes keeps its file, unless it is a source that was to be closed.
    && (forall q :: !IsDest(arcs, q) ==>
          && (q in after <==> q in before && !WantsClosed(arcs, q))
          && (q in after ==> after[q] == before[q]))
  }

  lemma FinalIsShuffled(arcs: seq<Arc>, table: map<int, File>)
    requires DistinctDests(arcs) && SourcesOpen(arcs, table)
    ensures Shuffled(arcs, table, Final(arcs, table)) <==> !Clash(arcs)
  {
    var after := Final(arcs, table);
    forall q | !IsDest(arcs, q)
      ensures (q in after <==> q in table && !WantsClosed(arcs, q)) && (q in after ==> after[q] == table[q])
    {
      assert !IsWritten(arcs, q) && !ClashAt(arcs, q);
      if q in table { ValueElsewhere(arcs, table, q); }
    }
    forall k | 0 <= k < |arcs| && arcs[k].source in table
      ensures var d := arcs[k].dest;
              if ClashAt(arcs, d) then d !in after else d in after && after[d] == table[arcs[k].source]
    {
      assert IsDest(arcs, arcs[k].dest);
      assert !arcs[k].Identity() ==> arcs[k].dest in Written(arcs);
      ValueAtDest(arcs, table, k);
    }
    if q :| ClashAt(arcs, q) {
      var m, j :| 0 <= m < j < |arcs| && arcs[m].source == arcs[m].dest == arcs[j].source == q &&
                  (arcs[m].close || arcs[j].close);
      assert !arcs[j].Identity();
    }
  }

  /** What RunLeavesFinalTable says of a run from `before` to `after`. */
  ghost predicate Leaves(arcs: seq<Arc>, reserved: set<int>, before: map<int, File>, after: map<int, File>,
          handed: seq<int>)
  {
    && DistinctDests(arcs) && SourcesOpen(arcs, before) && NoRepeats(handed)
    && (forall k :: 0 <= k < |arcs| ==> arcs[k].source in before || arcs[k].source in reserved)
    && Settled(Final(arcs, before), after, Elements(handed), Kept(handed))
    && forall k :: 0 <= k < |handed| ==>
         handed[k] !in reserved && (handed[k] in Final(arcs, before) ==> IsDest(arcs, handed[k]))
  }

  /** A temporary that is closed at the end although it is a destination leaves that empty. */
  lemma KeptDestinationIsLost(arcs: seq<Arc>, reserved: set<int>, before: map<int, File>, after: map<int, File>,
          handed: seq<int>, k: nat)
    requires Leaves(arcs, reserved, before, after, handed)
    requires k < |handed| && k < MAX_EXTRA_FDS && IsDest(arcs, handed[k])
    ensures !Shuffled(arcs, before, after)
  {
    assert AtMost(handed, MAX_EXTRA_FDS)[k] == handed[k];
    var m :| 0 <= m < |arcs| && arcs[m].dest == handed[k];
    assert arcs[m].source in before;
  }

  /** A temporary that stays open although it is no destination is in the way. */
  lemma LeakedElementStays(arcs: seq<Arc>, reserved: set<int>, before: map<int, File>, after: map<int, File>,
          handed: seq<int>, k: nat)
    requires Leaves(arcs, reserved, before, after, handed)
    requires MAX_EXTRA_FDS <= k < |handed| && !IsDest(arcs, handed[k])
    ensures !Shuffled(arcs, before, after)
  {
    var t := handed[k];
    assert t in Elements(handed);
    assert t !in Kept(handed);
    assert t !in Final(arcs, before);
    assert t in after;
    assert t in before ==> Closes(arcs, t) && !ClashAt(arcs, t);
  }

  /** If no temporary is a destination and none is left over, the table is exactly the one asked for. */
  lemma NoneLeft(arcs: seq<Arc>, reserved: set<int>, before: map<int, File>, after: map<int, File>, handed: seq<int>)
    requires Leaves(arcs, reserved, before, after, handed)
    requires |handed| <= MAX_EXTRA_FDS && NoneIsDest(arcs, handed)
    ensures after == Final(arcs, before)
  {
    forall t | t in Elements(handed) ensures t !in Final(arcs, before) {
      var k :| 0 <= k < |handed| && handed[k] == t;
    }
  }

  /** Without a clash every destination is part of the table asked for. */
  lemma DestinationsAreFinal(arcs: seq<Arc>, table: map<int, File>, k: nat)
    requires SourcesOpen(arcs, table) && !Clash(arcs) && k < |arcs| && arcs[k].source in table
    ensures arcs[k].dest in Final(arcs, table)
  {
    assert IsDest(arcs, arcs[k].dest) && !ClashAt(arcs, arcs[k].dest);
    assert !arcs[k].Identity() ==> arcs[k].dest in Written(arcs);
  }

  lemma OnlyDestinationsLeft(arcs: seq<Arc>, reserved: set<int>, before: map<int, File>, after: map<int, File>,
          handed: seq<int>)
    requires Leaves(arcs, reserved, before, after, handed) && !Clash(arcs)
    requires forall k :: 0 <= k < |handed| ==> (IsDest(arcs, handed[k]) <==> MAX_EXTRA_FDS <= k)
    ensures after == Final(arcs, before)
  {
    var final, kept := Final(arcs, before), AtMost(handed, MAX_EXTRA_FDS);
    forall t | t in Elements(handed) ensures t in final <==> t !in Elements(kept) {
      var k :| 0 <= k < |handed| && handed[k] == t;
      if k < MAX_EXTRA_FDS {
        assert kept[k] == t;
      } else {
        assert forall j :: 0 <= j < |kept| ==> kept[j] == handed[j] != t;
        var m :| 0 <= m < |arcs| && arcs[m].dest == t;
        DestinationsAreFinal(arcs, before, m);
      }
    }
    forall t | t in Elements(kept) ensures t in Elements(handed) {
      var k :| 0 <= k < |kept| && kept[k] == t;
      assert handed[k] == t;
    }
  }

  /** Nothing that Duplicate is going to hand out for these arcs is a destination. */
  ghost predicate DupsFit(arcs: seq<Arc>, dups: seq<int>) {
    NoneIsDest(arcs, AtMost(dups, TempCount(arcs)))
  }

  /** The first destination that Duplicate is going to hand out comes when the buffer is full. */
  ghost predicate LateMisfit(arcs: seq<Arc>, dups: seq<int>) {
    !DupsFit(arcs, dups) && NoneIsDest(arcs, AtMost(dups, MAX_EXTRA_FDS))
  }

  /**
    Exactly when a successful run meets the request, by what can be told before the call: no arc that leaves
    its element in place is followed by an arc reading the same element, with a close flag on one of the two;
    no element handed out as a temporary is a destination; and there are no more of them than the buffer holds.
    The one case left to RunShufflesByHanded needs at least seventeen temporaries.
   */
  lemma RunShuffles(arcs: seq<Arc>, w: Domain)
    requires DistinctDests(arcs) && SourcesKnown(arcs, w)
    ensures var (ok, w') := Run(arcs, w, []);
            ok && !LateMisfit(arcs, w.dups) ==>
              (Shuffled(arcs, w.table, w'.table) <==>
                 !Clash(arcs) && DupsFit(arcs, w.dups) && TempCount(arcs) <= MAX_EXTRA_FDS)
    ensures LateMisfit(arcs, w.dups) ==> TempCount(arcs) > MAX_EXTRA_FDS
  {
    var (ok, w') := Run(arcs, w, []);
    var n := TempCount(arcs);
    if LateMisfit(arcs, w.dups) {
      assert forall k :: 0 <= k < MAX_EXTRA_FDS && k < |w.dups| ==> AtMost(w.dups, MAX_EXTRA_FDS)[k] == w.dups[k];
      var j: nat :| j < |AtMost(w.dups, n)| && IsDest(arcs, AtMost(w.dups, n)[j]);
    } else if ok {
      RunLeavesFinalTable(arcs, w);
      assert Elements([]) == {};
      HandedCount(arcs, w, {}, []);
      var handed := Handed(w, w');
      assert Leaves(arcs, w.reserved, w.table, w'.table, handed);
      if DupsFit(arcs, w.dups) {
        FittingAreHanded(arcs, w.dups, handed);
        if n <= MAX_EXTRA_FDS {
          NoneLeft(arcs, w.reserved, w.table, w'.table, handed);
          FinalIsShuffled(arcs, w.table);
        } else {
          assert !IsDest(arcs, handed[MAX_EXTRA_FDS]);
          LeakedElementStays(arcs, w.reserved, w.table, w'.table, handed, MAX_EXTRA_FDS);
        }
      } else {
        var k := MisfitIsHanded(arcs, w.dups, handed);
        KeptDestinationIsLost(arcs, w.reserved, w.table, w'.table, handed, k);
      }
    }
  }

  lemma FittingAreHanded(arcs: seq<Arc>, dups: seq<int>, handed: seq<int>)
    requires handed <= dups && DupsFit(arcs, dups)
    requires NoneIsDest(arcs, AtMost(handed, TempCount(arcs))) ==> |handed| == TempCount(arcs)
    ensures |handed| == TempCount(arcs) && NoneIsDest(arcs, handed)
  {
    var n := TempCount(arcs);
    assert forall k :: 0 <= k < |AtMost(handed, n)| ==> AtMost(handed, n)[k] == AtMost(dups, n)[k];
  }

  lemma MisfitIsHanded(arcs: seq<Arc>, dups: seq<int>, handed: seq<int>) returns (k: nat)
    requires handed <= dups && !DupsFit(arcs, dups) && !LateMisfit(arcs, dups)
    requires NoneIsDest(arcs, AtMost(handed, TempCount(arcs))) ==> |handed| == TempCount(arcs)
    ensures k < |handed| && k < MAX_EXTRA_FDS && IsDest(arcs, handed[k])
  {
    var n := TempCount(arcs);
    var i: nat :| i < |AtMost(dups, MAX_EXTRA_FDS)| && IsDest(arcs, AtMost(dups, MAX_EXTRA_FDS)[i]);
    if i < |handed| {
      k := i;
    } else if NoneIsDest(arcs, AtMost(handed, n)) {
      var j: nat :| j < |AtMost(dups, n)| && IsDest(arcs, AtMost(dups, n)[j]);
      k := j;
    } else {
      k :| 0 <= k < |AtMost(handed, n)| && IsDest(arcs, AtMost(handed, n)[k]);
    }
  }

  /** An element that is closed by a clash is missed, unless Duplicate hands it out again and it stays. */
  lemma ClashIsMissed(arcs: seq<Arc>, reserved: set<int>, before: map<int, File>, after: map<int, File>,
          handed: seq<int>)
    requires Leaves(arcs, reserved, before, after, handed) && Clash(arcs)
    requires forall k :: MAX_EXTRA_FDS <= k < |handed| ==> !ClashAt(arcs, handed[k])
    ensures !Shuffled(arcs, before, after)
  {
    var q :| ClashAt(arcs, q);
    ClashedIsGone(arcs, before, q);
    EarlyIsKept(handed, q);
  }

  /** A clash closes an element that the arc to itself asks for. */
  lemma ClashedIsGone(arcs: seq<Arc>, table: map<int, File>, q: int)
    requires DistinctDests(arcs) && SourcesOpen(arcs, table) && ClashAt(arcs, q)
    ensures q in table && q !in Final(arcs, table)
    ensures exists m :: 0 <= m < |arcs| && arcs[m].source == q && arcs[m].dest == q
  {
    var m, j :| 0 <= m < j < |arcs| && arcs[m].source == arcs[m].dest == arcs[j].source == q &&
                (arcs[m].close || arcs[j].close);
    assert !arcs[j].Identity();
  }

  lemma EarlyIsKept(handed: seq<int>, q: int)
    requires forall k :: MAX_EXTRA_FDS <= k < |handed| ==> handed[k] != q
    ensures q !in Elements(handed) - Kept(handed)
  {
    assert forall k :: 0 <= k < |handed| && k < MAX_EXTRA_FDS ==> AtMost(handed, MAX_EXTRA_FDS)[k] == handed[k];
  }

  /**
    Every case, by what was handed out: the request is met exactly when there is no clash and, of the
    elements handed out, the destinations are those that the buffer had no room for. (If a clash has closed
    an element, and that is handed out again and left open, it may by chance have the right file.)
   */
  lemma RunShufflesByHanded(arcs: seq<Arc>, w: Domain)
    requires DistinctDests(arcs) && SourcesKnown(arcs, w)
    ensures var (ok, w') := Run(arcs, w, []);
            ok ==>
              && |w'.dups| <= |w.dups|
              && var handed := Handed(w, w');
                 (forall k :: MAX_EXTRA_FDS <= k < |handed| ==> !ClashAt(arcs, handed[k])) ==>
                   (Shuffled(arcs, w.table, w'.table) <==>
                      && !Clash(arcs)
                      && forall k :: 0 <= k < |handed| ==> (IsDest(arcs, handed[k]) <==> MAX_EXTRA_FDS <= k))
  {
    var (ok, w') := Run(arcs, w, []);
    if ok {
      RunLeavesFinalTable(arcs, w);
      var handed := Handed(w, w');
      assert Leaves(arcs, w.reserved, w.table, w'.table, handed);
      if Clash(arcs) {
        if forall k :: MAX_EXTRA_FDS <= k < |handed| ==> !ClashAt(arcs, handed[k]) {
          ClashIsMissed(arcs, w.reserved, w.table, w'.table, handed);
        }
      } else if forall k :: 0 <= k < |handed| ==> (IsDest(arcs, handed[k]) <==> MAX_EXTRA_FDS <= k) {
        OnlyDestinationsLeft(arcs, w.reserved, w.table, w'.table, handed);
        FinalIsShuffled(arcs, w.table);
      } else {
        var k :| 0 <= k < |handed| && !(IsDest(arcs, handed[k]) <==> MAX_EXTRA_FDS <= k);
        if k < MAX_EXTRA_FDS { KeptDestinationIsLost(arcs, w.reserved, w.table, w'.table, handed, k); }
        else { LeakedElementStays(arcs, w.reserved, w.table, w'.table, handed, k); }
      }
    }
  }

  /** The delegate has an element for every arc that none of the arcs speaks of, and every Move works. */
  ghost predicate Willing(arcs: seq<Arc>, w: Domain) {
    && |arcs| <= |w.dups| && |arcs| <= |w.moves|
    && (forall k :: 0 <= k < |w.moves| ==> w.moves[k])
    && NoRepeats(w.dups)
    && forall k :: 0 <= k < |w.dups| ==>
         && w.FreshElement(w.dups[k])
         && forall n :: 0 <= n < |arcs| ==> arcs[n].source != w.dups[k] && arcs[n].dest != w.dups[k]
  }

  /** With a willing delegate the run succeeds: no source is closed or overwritten before its last use. */
  lemma {:induction false} WillingRunSucceeds(arcs: seq<Arc>, w: Domain, extra: seq<int>)
    requires DistinctDests(arcs) && SourcesOpen(arcs, w.table) && Willing(arcs, w)
    ensures Run(arcs, w, extra).0
    decreases |arcs|
  {
    if arcs != [] {
      var x, rest := arcs[0], arcs[1..];
      var needs := NeedsTemp(x, rest);
      if needs {
        var k :| 0 <= k < |rest| && rest[k].source == x.dest;
        assert arcs[k + 1] == rest[k] && !arcs[k + 1].Identity();
        assert w.DupAnswer(x.dest) == Some(w.dups[0]);
      }
      var t := if needs then w.dups[0] else x.dest;
      var w1 := if needs then w.Duplicate(x.dest) else w;
      var (c, later) := Rewire(x, rest, t);
      var (ok, w3) := CarryOut(x, c, w1);
      assert ok;
      StepBasics(arcs, w.table, t);
      assert w3.table == TableAfter(arcs, w.table, t);
      WillingKept(arcs, w, w1, w3, t);
      WillingRunSucceeds(later, w3, if needs then Remember(extra, t) else extra);
    }
  }

  lemma WillingKept(arcs: seq<Arc>, w: Domain, w1: Domain, w3: Domain, temp: int)
    requires arcs != [] && Willing(arcs, w)
    requires temp == if NeedsTemp(arcs[0], arcs[1..]) then w.dups[0] else arcs[0].dest
    requires w1 == if NeedsTemp(arcs[0], arcs[1..]) then w.Duplicate(arcs[0].dest) else w
    requires NeedsTemp(arcs[0], arcs[1..]) ==> w.DupAnswer(arcs[0].dest) == Some(temp)
    requires CarryOut(arcs[0], Rewire(arcs[0], arcs[1..], temp).0, w1) == (true, w3)
    ensures Willing(Later(arcs, temp), w3)
  {
    var later := Later(arcs, temp);
    RewireEnds(arcs[0], arcs[1..], temp);
    assert forall k :: 0 <= k < |later| ==> arcs[1..][k] == arcs[k + 1];
    if NeedsTemp(arcs[0], arcs[1..]) {
      assert forall k :: 0 <= k < |w3.dups| ==> w3.dups[k] == w.dups[k + 1];
      assert forall k :: 0 <= k < |w3.dups| ==> w3.dups[k] != temp;
    }
    forall k | 0 <= k < |w3.dups| ensures w3.FreshElement(w3.dups[k]) {
      assert w3.dups[k] != arcs[0].dest;
    }
  }

  /**
    That Duplicate avoids what is open is not enough: it may hand out a destination that was not open. Here
    dup gives the lowest number that is free, 5, which is where 1 is to move.
   */
  lemma FreshElementIsNeeded()
    ensures var arcs := [Arc(0, 1, false), Arc(1, 5, false)];
            var table := map[0 := File(10), 1 := File(11), 2 := File(12), 3 := File(13), 4 := File(14)];
            var (ok, w') := Run(arcs, Domain(table, {}, [5], [true, true], 0), []);
            ok && 5 !in w'.table && !Clash(arcs) && !Shuffled(arcs, table, w'.table)
  {
    var a0, a1, b1 := Arc(0, 1, false), Arc(1, 5, false), Arc(5, 5, false);
    var table := map[0 := File(10), 1 := File(11), 2 := File(12), 3 := File(13), 4 := File(14)];
    var w := Domain(table, {}, [5], [true, true], 0);
    assert [a0, a1][1..] == [a1] && [a1][1..] == [] && [b1][1..] == [];
    assert [a0, a1][1].dest == 5;
    assert [a1][0].source == 1;
    assert NeedsTemp(a0, [a1]);
    var w1 := w.Duplicate(1);
    assert Run([a0, a1], w, []) == RunArc(a0, [a1], 5, w1, Remember([], 5));
    assert Rewire(a0.(close := false), [], 5) == (false, []);
    assert Visit(a0, a1, 5) == (false, b1) && [b1] + [] == [b1];
    assert Rewire(a0, [a1], 5) == (false, [b1]);
    var w2 := CarryOut(a0, false, w1).1;
    assert RunArc(a0, [a1], 5, w1, [5]) == Run([b1], w2, [5]);
    assert Rewire(b1, [], 5) == (false, []);
    assert Run([b1], w2, [5]) == RunArc(b1, [], 5, w2, [5]) == Run([], w2, [5]);
    assert CloseAll(w2, [5]) == CloseAll(w2.Close(5), []);
  }

  /** The other exception is real too: here 3 stays in place, is copied to 4, and ends up closed. */
  lemma ClashLosesADestination()
    ensures var arcs := [Arc(3, 3, false), Arc(3, 4, true)];
            var w := Domain(map[3 := File(10), 4 := File(11)], {}, [8, 9], [true, true], 0);
            var (ok, w') := Run(arcs, w, []);
            DistinctDests(arcs) && SourcesKnown(arcs, w) && Clash(arcs) && ok && !Shuffled(arcs, w.table, w'.table)
  {
    var arcs := [Arc(3, 3, false), Arc(3, 4, true)];
    var w := Domain(map[3 := File(10), 4 := File(11)], {}, [8, 9], [true, true], 0);
    assert Clash(arcs) by {
      assert arcs[0].source == arcs[0].dest == arcs[1].source == 3 && arcs[1].close;
      assert ClashAt(arcs, 3);
    }
    assert Run(arcs, w, []).0 by { WillingRunSucceeds(arcs, w, []); }
    RunShuffles(arcs, w);
  }
}
