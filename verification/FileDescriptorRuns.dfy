/** base/file_descriptor_shuffle.cc: what a whole run does to the table, by induction over its arcs. */
module FileDescriptorRuns {
  import opened Basics
  import opened FileDescriptorShuffle

  /** The elements Duplicate handed out between `w` and a later state `w'`. */
  ghost function Handed(w: Domain, w': Domain): seq<int>
    requires |w'.dups| <= |w.dups|
  {
    w.dups[..|w.dups| - |w'.dups|]
  }

  ghost function Elements(s: seq<int>): set<int> {
    set k | 0 <= k < |s| :: s[k]
  }

  ghost function RememberAll(extra: seq<int>, temps: seq<int>): seq<int>
    decreases temps
  {
    if temps == [] then extra else RememberAll(Remember(extra, temps[0]), temps[1..])
  }

  ghost predicate NoRepeats(s: seq<int>) {
    forall i, j :: 0 <= i < j < |s| ==> s[i] != s[j]
  }

  /** `temps` are the temporaries alive, `extra` those of them that will be closed at the end. */
  ghost predicate TempsAlive(arcs: seq<Arc>, w: Domain, temps: set<int>, extra: seq<int>) {
    && temps <= w.table.Keys
    && Elements(extra) <= temps
    && NoRepeats(extra)
    && forall k :: 0 <= k < |arcs| ==>
         arcs[k].source in temps ==> !arcs[k].close
  }

  lemma {:induction false} CloseAllOpen(w: Domain, extra: seq<int>)
    requires Elements(extra) <= w.table.Keys
    requires NoRepeats(extra)
    ensures CloseAll(w, extra) == w.(table := w.table - Elements(extra))
    decreases extra
  {
    if extra != [] {
      assert extra[0] in Elements(extra);
      forall q | q in Elements(extra[1..]) ensures q in w.Close(extra[0]).table {
        var k :| 0 <= k < |extra[1..]| && extra[1..][k] == q;
        assert extra[k + 1] == q;
      }
      CloseAllOpen(w.Close(extra[0]), extra[1..]);
      assert Elements(extra) == {extra[0]} + Elements(extra[1..]) by {
        forall q | q in Elements(extra) ensures q in {extra[0]} + Elements(extra[1..]) {
          var k :| 0 <= k < |extra| && extra[k] == q;
          if k > 0 { assert extra[1..][k - 1] == q; }
        }
        forall q | q in Elements(extra[1..]) ensures q in Elements(extra) {
          var k :| 0 <= k < |extra[1..]| && extra[1..][k] == q;
          assert extra[k + 1] == q;
        }
      }
      assert w.table - {extra[0]} - Elements(extra[1..]) == w.table - Elements(extra);
    } else {
      assert w.table - Elements(extra) == w.table;
    }
  }

  ghost predicate Ready(arcs: seq<Arc>, w: Domain, temps: set<int>, extra: seq<int>) {
    DistinctDests(arcs) && SourcesKnown(arcs, w) && TempsAlive(arcs, w, temps, extra)
  }

  lemma ElementsSnoc(s: seq<int>, x: int)
    ensures Elements(s + [x]) == Elements(s) + {x}
  {
    assert (s + [x])[|s|] == x;
    assert forall k :: 0 <= k < |s| ==> (s + [x])[k] == s[k];
  }

  lemma TakeCons(s: seq<int>, n: nat)
    requires 0 < n <= |s|
    ensures s[..n] == [s[0]] + s[1..][..n - 1]
  {
  }

  lemma ElementsCons(x: int, s: seq<int>)
    ensures Elements([x] + s) == {x} + Elements(s)
  {
    assert ([x] + s)[0] == x;
    assert forall k :: 0 <= k < |s| ==> ([x] + s)[k + 1] == s[k];
  }

  /** A fresh element is no source of any arc and joins the live temporaries. */
  lemma DuplicateKeepsReady(arcs: seq<Arc>, w: Domain, temps: set<int>, extra: seq<int>)
    requires arcs != [] && Ready(arcs, w, temps, extra) && w.DupAnswer(arcs[0].dest).Some?
    ensures var t := w.DupAnswer(arcs[0].dest).value;
            && Ready(arcs, w.Duplicate(arcs[0].dest), temps + {t}, Remember(extra, t))
            && !IsSource(arcs, t)
  {
    var t := w.DupAnswer(arcs[0].dest).value;
    ElementsSnoc(extra, t);
    assert forall k :: 0 <= k < |extra| ==> extra[k] in Elements(extra);
  }

  /** After Duplicate, carrying out arc 0 leaves a problem of the same kind. */
  lemma CarryOutKeepsReady(arcs: seq<Arc>, w: Domain, temps: set<int>, extra: seq<int>, temp: int)
    requires arcs != [] && Ready(arcs, w, temps, extra)
    requires if NeedsTemp(arcs[0], arcs[1..]) then
               temp in temps && !IsSource(arcs, temp)
             else temp == arcs[0].dest
    requires CarryOut(arcs[0], Rewire(arcs[0], arcs[1..], temp).0, w).0
    ensures Ready(Later(arcs, temp), CarryOut(arcs[0], Rewire(arcs[0], arcs[1..], temp).0, w).1, temps, extra)
  {
    var x, rest := arcs[0], arcs[1..];
    RewireEnds(x, rest, temp);
    RewireFlags(x, rest, temp);
    RewireLast(x, rest, temp);
    assert forall k :: 0 <= k < |rest| ==> rest[k] == arcs[k + 1];
  }

  /**
    The table is the one asked for, with what was handed out and without what was remembered of that; what
    was handed out is part of the table asked for only where it is a destination.
   */
  ghost predicate Exact(arcs: seq<Arc>, w: Domain, extra: seq<int>, w': Domain) {
    && |w'.dups| <= |w.dups| && w'.badCloses == w.badCloses && w'.reserved == w.reserved
    && SourcesOpen(arcs, w.table)
    && var handed, final := Handed(w, w'), Final(arcs, w.table);
       && |handed| <= |arcs|
       && Settled(final, w'.table, Elements(handed), Elements(RememberAll(extra, handed)))
       && forall t :: t in Elements(handed) ==> t !in w.reserved && (t in final ==> IsDest(arcs, t))
  }

  ghost predicate Settled(final: map<int, File>, table: map<int, File>, handed: set<int>, kept: set<int>) {
    && table.Keys == final.Keys + handed - kept
    && forall q :: q in table && q in final ==> table[q] == final[q]
  }

  lemma {:induction false} RunExact(arcs: seq<Arc>, w: Domain, temps: set<int>, extra: seq<int>)
    requires Ready(arcs, w, temps, extra)
    ensures Run(arcs, w, extra).0 ==> Exact(arcs, w, extra, Run(arcs, w, extra).1)
    decreases |arcs|
  {
    if arcs == [] {
      CloseAllOpen(w, extra);
      assert Final(arcs, w.table) == w.table;
      var w' := Run(arcs, w, extra).1;
      assert Handed(w, w') == [];
    } else if Run(arcs, w, extra).0 {
      var temp, w1, temps1, extra1 := FirstDuplicate(arcs, w, temps, extra);
      CarryOutKeepsReady(arcs, w1, temps1, extra1, temp);
      var w3 := CarryOut(arcs[0], Rewire(arcs[0], arcs[1..], temp).0, w1).1;
      RunExact(Later(arcs, temp), w3, temps1, extra1);
      ArcExact(arcs, w, w1, w3, temps, temps1, extra, extra1, temp, Run(arcs, w, extra).1);
    }
  }

  /** `w1` is `w` after the Duplicate of arc 0, if it makes one; `temp` is what that handed out. */
  ghost predicate AfterDuplicate(arcs: seq<Arc>, w: Domain, w1: Domain, temp: int)
    requires arcs != []
  {
    if NeedsTemp(arcs[0], arcs[1..]) then
      && w.DupAnswer(arcs[0].dest) == Some(temp) && w1 == w.Duplicate(arcs[0].dest)
      && !IsSource(arcs, temp)
    else temp == arcs[0].dest && w1 == w
  }

  lemma FirstDuplicate(arcs: seq<Arc>, w: Domain, temps: set<int>, extra: seq<int>)
    returns (temp: int, w1: Domain, temps1: set<int>, extra1: seq<int>)
    requires arcs != [] && Ready(arcs, w, temps, extra) && Run(arcs, w, extra).0
    ensures AfterDuplicate(arcs, w, w1, temp) && Ready(arcs, w1, temps1, extra1)
    ensures NeedsTemp(arcs[0], arcs[1..]) ==> temp !in temps
    ensures temps1 == temps + (if NeedsTemp(arcs[0], arcs[1..]) then {temp} else {})
    ensures extra1 == if NeedsTemp(arcs[0], arcs[1..]) then Remember(extra, temp) else extra
    ensures RunArc(arcs[0], arcs[1..], temp, w1, extra1) == Run(arcs, w, extra)
    ensures CarryOut(arcs[0], Rewire(arcs[0], arcs[1..], temp).0, w1).0
  {
    var x := arcs[0];
    if NeedsTemp(x, arcs[1..]) {
      temp, w1 := w.DupAnswer(x.dest).value, w.Duplicate(x.dest);
      temps1, extra1 := temps + {temp}, Remember(extra, temp);
      DuplicateKeepsReady(arcs, w, temps, extra);
    } else {
      temp, w1, temps1, extra1 := x.dest, w, temps, extra;
    }
  }

  /** The induction step: from the exactness of the remaining arcs to that of all of them. */
  lemma ArcExact(arcs: seq<Arc>, w: Domain, w1: Domain, w3: Domain, temps: set<int>, temps1: set<int>,
          extra: seq<int>, extra1: seq<int>, temp: int, w': Domain)
    requires arcs != [] && DistinctDests(arcs) && SourcesKnown(arcs, w) && AfterDuplicate(arcs, w, w1, temp)
    requires NeedsTemp(arcs[0], arcs[1..]) ==> temp !in temps
    requires temps1 == temps + Temps(arcs, temp)
    requires extra1 == if NeedsTemp(arcs[0], arcs[1..]) then Remember(extra, temp) else extra
    requires CarryOut(arcs[0], Rewire(arcs[0], arcs[1..], temp).0, w1) == (true, w3)
    requires Exact(Later(arcs, temp), w3, extra1, w')
    ensures Exact(arcs, w, extra, w')
  {
    var later, handed := Elements(Handed(w3, w')), Elements(Handed(w, w'));
    HandedStep(w, w3, w', temps, temps1, extra, extra1, NeedsTemp(arcs[0], arcs[1..]));
    SourcesWereOpen(arcs, w, w1, temp);
    StepOnDomain(arcs, w, w1, temp);
    StepDests(arcs, w.table, temp);
    var before, now := Final(arcs, w.table), Final(Later(arcs, temp), w3.table);
    SettledBefore(before, now, w'.table, later, handed, Elements(RememberAll(extra, Handed(w, w'))),
                  Temps(arcs, temp), Loose(arcs, temp));
    HandedArePart(before, now, later, handed, w.reserved, Temps(arcs, temp), Loose(arcs, temp), arcs,
                  Later(arcs, temp));
  }

  /** A temporary that is meant to stay is a destination, and there are no new destinations. */
  lemma StepDests(arcs: seq<Arc>, table: map<int, File>, temp: int)
    requires StepPre(arcs, table, temp)
    ensures forall t :: t in Temps(arcs, temp) - Loose(arcs, temp) ==> IsDest(arcs, t)
    ensures forall t :: IsDest(Later(arcs, temp), t) ==> IsDest(arcs, t)
  {
    StepBasics(arcs, table, temp);
  }

  lemma SettledBefore(before: map<int, File>, now: map<int, File>, table: map<int, File>, later: set<int>,
          handed: set<int>, kept: set<int>, temps: set<int>, loose: set<int>)
    requires before == now - loose && loose <= temps <= now.Keys && handed == later + temps
    requires Settled(now, table, later, kept)
    ensures Settled(before, table, handed, kept)
  {
    assert before.Keys + handed == now.Keys + later;
  }

  lemma HandedArePart(before: map<int, File>, now: map<int, File>, later: set<int>, handed: set<int>,
          reserved: set<int>, temps: set<int>, loose: set<int>, arcs: seq<Arc>, laterArcs: seq<Arc>)
    requires before == now - loose && loose <= temps && temps !! reserved && handed == later + temps
    requires forall t :: t in temps - loose ==> IsDest(arcs, t)
    requires forall t :: t in later ==> t !in reserved && (t in now ==> IsDest(laterArcs, t))
    requires forall t :: IsDest(laterArcs, t) ==> IsDest(arcs, t)
    ensures forall t :: t in handed ==> t !in reserved && (t in before ==> IsDest(arcs, t))
  {
  }

  lemma HandedStep(w: Domain, w3: Domain, w': Domain, temps: set<int>, temps1: set<int>, extra: seq<int>,
          extra1: seq<int>, needs: bool)
    requires |w'.dups| <= |w3.dups|
    requires if needs then
               && |w.dups| > 0 && w3.dups == w.dups[1..] && w.dups[0] !in temps
               && temps1 == temps + {w.dups[0]} && extra1 == Remember(extra, w.dups[0])
             else w3.dups == w.dups && temps1 == temps && extra1 == extra
    ensures var later, handed := Handed(w3, w'), Handed(w, w');
            && |handed| == |later| + (if needs then 1 else 0)
            && Elements(handed) == Elements(later) + (if needs then {w.dups[0]} else {})
            && RememberAll(extra, handed) == RememberAll(extra1, later)
  {
    if needs {
      TakeCons(w.dups, |Handed(w, w')|);
      ElementsCons(w.dups[0], Handed(w3, w'));
    }
  }

  /** `StepKeepsMeaning`, read on the domain. */
  lemma StepOnDomain(arcs: seq<Arc>, w: Domain, w1: Domain, temp: int)
    requires arcs != [] && DistinctDests(arcs) && SourcesOpen(arcs, w.table)
    requires AfterDuplicate(arcs, w, w1, temp)
    requires CarryOut(arcs[0], Rewire(arcs[0], arcs[1..], temp).0, w1).0
    ensures var w3 := CarryOut(arcs[0], Rewire(arcs[0], arcs[1..], temp).0, w1).1;
            && StepPre(arcs, w.table, temp) && SourcesOpen(Later(arcs, temp), w3.table)
            && w3.reserved == w.reserved && w3.badCloses == w.badCloses
            && Final(arcs, w.table) == Final(Later(arcs, temp), w3.table) - Loose(arcs, temp)
            && Temps(arcs, temp) <= Final(Later(arcs, temp), w3.table).Keys
  {
    var w3 := CarryOut(arcs[0], Rewire(arcs[0], arcs[1..], temp).0, w1).1;
    StepKeepsMeaning(arcs, w.table, temp);
    assert w3.table == TableAfter(arcs, w.table, temp);
  }

  /** No temporary is handed out twice in one run: those alive are open until the very end. */
  lemma {:induction false} TempsDiffer(arcs: seq<Arc>, w: Domain, temps: set<int>, extra: seq<int>)
    requires Ready(arcs, w, temps, extra) && Run(arcs, w, extra).0
    ensures var w' := Run(arcs, w, extra).1;
            |w'.dups| <= |w.dups| && NoRepeats(Handed(w, w')) && temps !! Elements(Handed(w, w'))
    decreases |arcs|
  {
    if arcs == [] {
      CloseAllOpen(w, extra);
    } else {
      var temp, w1, temps1, extra1 := FirstDuplicate(arcs, w, temps, extra);
      CarryOutKeepsReady(arcs, w1, temps1, extra1, temp);
      var w3 := CarryOut(arcs[0], Rewire(arcs[0], arcs[1..], temp).0, w1).1;
      TempsDiffer(Later(arcs, temp), w3, temps1, extra1);
      var w' := Run(arcs, w, extra).1;
      HandedCons(arcs, w, w1, w3, temp, w');
      if NeedsTemp(arcs[0], arcs[1..]) { ArcDiffers(temps, temp, Handed(w3, w')); }
    }
  }

  /** One more that is not among the later ones, nor among those alive. */
  lemma ArcDiffers(temps: set<int>, temp: int, later: seq<int>)
    requires NoRepeats(later) && temp !in temps && temps + {temp} !! Elements(later)
    ensures NoRepeats([temp] + later) && temps !! Elements([temp] + later)
  {
    assert forall k :: 0 <= k < |later| ==> later[k] in Elements(later);
    ElementsCons(temp, later);
  }
  /** A Move can only succeed on an open source, so sources that are open later were open before. */
  lemma SourcesWereOpen(arcs: seq<Arc>, w: Domain, w1: Domain, temp: int)
    requires arcs != [] && SourcesKnown(arcs, w) && AfterDuplicate(arcs, w, w1, temp)
    requires CarryOut(arcs[0], Rewire(arcs[0], arcs[1..], temp).0, w1).0
    requires SourcesOpen(Later(arcs, temp), CarryOut(arcs[0], Rewire(arcs[0], arcs[1..], temp).0, w1).1.table)
    ensures SourcesOpen(arcs, w.table)
  {
    var x, rest := arcs[0], arcs[1..];
    var later := Later(arcs, temp);
    RewireEnds(x, rest, temp);
    forall k | 0 <= k < |arcs| && !arcs[k].Identity() ensures arcs[k].source in w.table {
      if k > 0 {
        assert rest[k - 1] == arcs[k];
        if !later[k - 1].Identity() {
          assert later[k - 1].source in CarryOut(x, Rewire(x, rest, temp).0, w1).1.table;
        }
      }
    }
  }

  // ----------------------------------------------------------------------------------------------
  // How many temporaries a run makes
  // ----------------------------------------------------------------------------------------------

  /** The arcs that would overwrite what a later arc has to read; told from the arcs alone. */
  function TempCount(arcs: seq<Arc>): (n: nat)
    ensures n <= |arcs|
    decreases arcs
  {
    if arcs == [] then 0 else (if NeedsTemp(arcs[0], arcs[1..]) then 1 else 0) + TempCount(arcs[1..])
  }

  /** The same arcs, as far as it matters for who needs a temporary. */
  ghost predicate SameNeeds(a: seq<Arc>, b: seq<Arc>) {
    && |a| == |b|
    && (forall k :: 0 <= k < |a| ==> (a[k].Identity() <==> b[k].Identity()))
    && forall k, j :: 0 <= k < j < |a| ==> (a[j].source == a[k].dest <==> b[j].source == b[k].dest)
  }

  lemma {:induction false} SameCount(a: seq<Arc>, b: seq<Arc>)
    requires SameNeeds(a, b)
    ensures TempCount(a) == TempCount(b)
    decreases a
  {
    if a != [] {
      assert forall k :: 0 <= k < |a| - 1 ==> a[1..][k] == a[k + 1] && b[1..][k] == b[k + 1];
      SameCount(a[1..], b[1..]);
    }
  }

  /** Redirecting the readers to a temporary that is no destination makes nobody need one more, or less. */
  lemma LaterCount(arcs: seq<Arc>, temp: int)
    requires arcs != [] && DistinctDests(arcs)
    requires NeedsTemp(arcs[0], arcs[1..]) ==> !IsDest(arcs, temp)
    ensures TempCount(Later(arcs, temp)) == TempCount(arcs[1..])
  {
    var x, rest := arcs[0], arcs[1..];
    RewireEnds(x, rest, temp);
    assert forall k :: 0 <= k < |rest| ==> rest[k] == arcs[k + 1];
    SameCount(Later(arcs, temp), rest);
  }

  ghost predicate NoneIsDest(arcs: seq<Arc>, s: seq<int>) {
    forall k :: 0 <= k < |s| ==> !IsDest(arcs, s[k])
  }

  function AtMost<T>(s: seq<T>, n: nat): seq<T> {
    if |s| <= n then s else s[..n]
  }

  /** As long as no temporary is a destination, a successful run makes as many as the arcs call for. */
  lemma {:induction false} HandedCount(arcs: seq<Arc>, w: Domain, temps: set<int>, extra: seq<int>)
    requires Ready(arcs, w, temps, extra) && Run(arcs, w, extra).0
    ensures var w' := Run(arcs, w, extra).1;
            && |w'.dups| <= |w.dups|
            && (NoneIsDest(arcs, AtMost(Handed(w, w'), TempCount(arcs))) ==> |Handed(w, w')| == TempCount(arcs))
    decreases |arcs|
  {
    if arcs == [] {
      CloseAllOpen(w, extra);
    } else {
      var temp, w1, temps1, extra1 := FirstDuplicate(arcs, w, temps, extra);
      CarryOutKeepsReady(arcs, w1, temps1, extra1, temp);
      var w3 := CarryOut(arcs[0], Rewire(arcs[0], arcs[1..], temp).0, w1).1;
      HandedCount(Later(arcs, temp), w3, temps1, extra1);
      var w' := Run(arcs, w, extra).1;
      HandedCons(arcs, w, w1, w3, temp, w');
      ArcCount(arcs, temp, Handed(w3, w'), Handed(w, w'));
    }
  }

  lemma HandedCons(arcs: seq<Arc>, w: Domain, w1: Domain, w3: Domain, temp: int, w': Domain)
    requires arcs != [] && AfterDuplicate(arcs, w, w1, temp)
    requires CarryOut(arcs[0], Rewire(arcs[0], arcs[1..], temp).0, w1) == (true, w3) && |w'.dups| <= |w3.dups|
    ensures |w'.dups| <= |w.dups|
    ensures Handed(w, w') == (if NeedsTemp(arcs[0], arcs[1..]) then [temp] else []) + Handed(w3, w')
  {
    if NeedsTemp(arcs[0], arcs[1..]) { TakeCons(w.dups, |Handed(w, w')|); }
  }

  lemma ArcCount(arcs: seq<Arc>, temp: int, later: seq<int>, handed: seq<int>)
    requires arcs != [] && DistinctDests(arcs)
    requires handed == (if NeedsTemp(arcs[0], arcs[1..]) then [temp] else []) + later
    requires var n := TempCount(Later(arcs, temp)); NoneIsDest(Later(arcs, temp), AtMost(later, n)) ==> |later| == n
    ensures NoneIsDest(arcs, AtMost(handed, TempCount(arcs))) ==> |handed| == TempCount(arcs)
  {
    var firstLater := AtMost(later, TempCount(arcs[1..]));
    if NeedsTemp(arcs[0], arcs[1..]) {
      AtMostCons(temp, later, TempCount(arcs[1..]));
    } else {
      assert handed == later;
    }
    if NoneIsDest(arcs, AtMost(handed, TempCount(arcs))) {
      if NeedsTemp(arcs[0], arcs[1..]) { NoneIsDestAfter(arcs, temp, firstLater); }
      LaterCount(arcs, temp);
      NoneIsLaterDest(arcs, temp, firstLater);
    }
  }

  lemma AtMostCons(x: int, s: seq<int>, n: nat)
    ensures AtMost([x] + s, n + 1) == [x] + AtMost(s, n)
  {
  }

  lemma NoneIsDestAfter(arcs: seq<Arc>, x: int, s: seq<int>)
    requires NoneIsDest(arcs, [x] + s)
    ensures !IsDest(arcs, x) && NoneIsDest(arcs, s)
  {
    assert ([x] + s)[0] == x;
    assert forall k :: 0 <= k < |s| ==> s[k] == ([x] + s)[k + 1];
  }

  lemma NoneIsLaterDest(arcs: seq<Arc>, temp: int, s: seq<int>)
    requires arcs != [] && NoneIsDest(arcs, s)
    ensures NoneIsDest(Later(arcs, temp), s)
  {
    forall k | 0 <= k < |s| ensures !IsDest(Later(arcs, temp), s[k]) {
      if IsDest(Later(arcs, temp), s[k]) { LaterDests(arcs, temp, s[k]); }
    }
  }

  lemma LaterDests(arcs: seq<Arc>, temp: int, q: int)
    requires arcs != [] && IsDest(Later(arcs, temp), q)
    ensures IsDest(arcs, q)
  {
    RewireEnds(arcs[0], arcs[1..], temp);
    var k :| 0 <= k < |arcs| - 1 && Later(arcs, temp)[k].dest == q;
    assert arcs[1..][k] == arcs[k + 1];
  }
}
