/**
  base/file_descriptor_shuffle.cc: a simultaneous assignment "dest_k := source_k" carried out in
  place, one arc at a time, on a single table of file descriptors.

  The delegate behind the algorithm is a `Domain`. What the operating system decides is scripted:
  `dups` are the elements Duplicate will hand out, `moves` says which Move calls will succeed.
  A scripted answer that no delegate may give (a negative element, an element in use, or one of
  the `reserved` elements) counts as a failed call, and so does an exhausted script.
 */
module FileDescriptorShuffle {
  import opened Basics

  datatype File = File(inode: int)

  /** A single arc of the multimap; `close` asks for the source to be deleted after the mapping. */
  datatype Arc = Arc(source: int, dest: int, close: bool) {
    predicate Identity() { source == dest }
  }

  const MAX_EXTRA_FDS: nat := 16

  // ----------------------------------------------------------------------------------------------
  // The delegate
  // ----------------------------------------------------------------------------------------------

  /** `badCloses` counts Close calls on elements that are not open: close(2) would fail on those. */
  datatype Domain = Domain(table: map<int, File>, reserved: set<int>,
                           dups: seq<int>, moves: seq<bool>, badCloses: nat)
  {
    predicate FreshElement(fd: int) {
      0 <= fd && fd !in table && fd !in reserved
    }

    /** The element the next Duplicate(fd) hands out, if it succeeds. */
    function DupAnswer(fd: int): Option<int> {
      if fd in table && |dups| > 0 && FreshElement(dups[0]) then Some(dups[0]) else None
    }

    function Duplicate(fd: int): Domain {
      var rest := if |dups| > 0 then dups[1..] else [];
      match DupAnswer(fd)
      case None => this.(dups := rest)
      case Some(t) => this.(table := table[t := table[fd]], dups := rest)
    }

    predicate MoveSucceeds(src: int) {
      src in table && |moves| > 0 && moves[0]
    }

    function Move(src: int, dest: int): Domain {
      var rest := if |moves| > 0 then moves[1..] else [];
      if MoveSucceeds(src) then this.(table := table[dest := table[src]], moves := rest)
      else this.(moves := rest)
    }

    function Close(fd: int): Domain {
      if fd in table then this.(table := table - {fd}) else this.(badCloses := badCloses + 1)
    }
  }

  // ----------------------------------------------------------------------------------------------
  // The algorithm as a function
  // ----------------------------------------------------------------------------------------------

  /** One visit of the inner loop: arc `x` is being carried out, `a` is a later arc. */
  function Visit(x: Arc, a: Arc, temp: int): (bool, Arc) {
    var b := if !x.Identity() && x.dest == a.source then a.(source := temp, close := false) else a;
    var c := x.close && x.source != a.dest;
    if c && x.source == b.source then (false, b.(close := true)) else (c, b)
  }

  /** The inner loop over all the later arcs: the close flag `x` is left with, and those arcs. */
  function Rewire(x: Arc, rest: seq<Arc>, temp: int): (r: (bool, seq<Arc>))
    ensures |r.1| == |rest|
    decreases rest
  {
    if rest == [] then (x.close, [])
    else
      var (c, a) := Visit(x, rest[0], temp);
      var (last, tail) := Rewire(x.(close := c), rest[1..], temp);
      (last, [a] + tail)
  }

  /** Does carrying out `x` overwrite an element that a later arc still has to read? */
  predicate NeedsTemp(x: Arc, rest: seq<Arc>) {
    !x.Identity() && exists k :: 0 <= k < |rest| && rest[k].source == x.dest
  }

  function Remember(extra: seq<int>, temp: int): seq<int> {
    if |extra| < MAX_EXTRA_FDS then extra + [temp] else extra
  }

  function CloseAll(w: Domain, extra: seq<int>): Domain
    decreases extra
  {
    if extra == [] then w else CloseAll(w.Close(extra[0]), extra[1..])
  }

  /** Move and Close for arc `x`, which the inner loop left with close flag `c`. */
  function CarryOut(x: Arc, c: bool, w: Domain): (bool, Domain) {
    if x.Identity() then (true, w)
    else if !w.MoveSucceeds(x.source) then (false, w.Move(x.source, x.dest))
    else
      var moved := w.Move(x.source, x.dest);
      (true, if c then moved.Close(x.source) else moved)
  }

  /** The whole run: success, and what it leaves in the domain. `extra` are the temporaries kept. */
  function Run(arcs: seq<Arc>, w: Domain, extra: seq<int>): (bool, Domain)
    decreases |arcs|, 1
  {
    if arcs == [] then (true, CloseAll(w, extra))
    else
      var x, rest := arcs[0], arcs[1..];
      if NeedsTemp(x, rest) then
        match w.DupAnswer(x.dest)
        case None => (false, w.Duplicate(x.dest))
        case Some(t) => RunArc(x, rest, t, w.Duplicate(x.dest), Remember(extra, t))
      else
        // No later arc reads x.dest, so the last argument but two of Rewire is never looked at.
        RunArc(x, rest, x.dest, w, extra)
  }

  function RunArc(x: Arc, rest: seq<Arc>, temp: int, w: Domain, extra: seq<int>): (bool, Domain)
    decreases |rest| + 1, 0
  {
    var (c, later) := Rewire(x, rest, temp);
    var (ok, w') := CarryOut(x, c, w);
    if ok then Run(later, w', extra) else (false, w')
  }

  // ----------------------------------------------------------------------------------------------
  // What the caller asks for
  // ----------------------------------------------------------------------------------------------

  ghost predicate DistinctDests(arcs: seq<Arc>) {
    forall i, j :: 0 <= i < j < |arcs| ==> arcs[i].dest != arcs[j].dest
  }

  ghost predicate IsDest(arcs: seq<Arc>, q: int) {
    exists k :: 0 <= k < |arcs| && arcs[k].dest == q
  }

  ghost predicate WantsClosed(arcs: seq<Arc>, q: int) {
    exists k :: 0 <= k < |arcs| && arcs[k].source == q && arcs[k].close
  }

  ghost predicate IsSource(arcs: seq<Arc>, q: int) {
    exists k :: 0 <= k < |arcs| && arcs[k].source == q
  }

  /** Every source is an element of the domain: it is open, or at least Duplicate does not hand it out. */
  ghost predicate SourcesKnown(arcs: seq<Arc>, w: Domain) {
    forall k :: 0 <= k < |arcs| ==> arcs[k].source in w.table || arcs[k].source in w.reserved
  }

  /** Every element that is read is open. An arc that leaves its element in place reads nothing. */
  ghost predicate SourcesOpen(arcs: seq<Arc>, table: map<int, File>) {
    forall k :: 0 <= k < |arcs| && !arcs[k].Identity() ==> arcs[k].source in table
  }

  ghost predicate IsWritten(arcs: seq<Arc>, q: int) {
    exists k :: 0 <= k < |arcs| && arcs[k].dest == q && !arcs[k].Identity()
  }

  /** An arc that leaves `q` where it is, a later arc reading `q`, and a close flag on either. */
  ghost predicate ClashAt(arcs: seq<Arc>, q: int) {
    exists m, j :: 0 <= m < j < |arcs| && arcs[m].source == arcs[m].dest == arcs[j].source == q &&
                   (arcs[m].close || arcs[j].close)
  }

  ghost predicate Clash(arcs: seq<Arc>) {
    exists q :: ClashAt(arcs, q)
  }

  /** The elements the run really closes. */
  ghost predicate Closes(arcs: seq<Arc>, q: int) {
    (WantsClosed(arcs, q) && !IsDest(arcs, q)) || ClashAt(arcs, q)
  }

  /** What the caller wants to find at `q`. */
  ghost function Value(arcs: seq<Arc>, table: map<int, File>, q: int): File
    requires SourcesOpen(arcs, table) && (q in table || IsWritten(arcs, q))
  {
    if arcs == [] then table[q]
    else if arcs[0].dest == q && !arcs[0].Identity() then table[arcs[0].source]
    else
      assert IsWritten(arcs, q) ==> IsWritten(arcs[1..], q);
      Value(arcs[1..], table, q)
  }

  ghost function Written(arcs: seq<Arc>): set<int> {
    set k | 0 <= k < |arcs| && !arcs[k].Identity() :: arcs[k].dest
  }

  /** The table a successful run leaves behind, temporaries apart. */
  ghost function Final(arcs: seq<Arc>, table: map<int, File>): map<int, File>
    requires SourcesOpen(arcs, table)
  {
    map q | q in table.Keys + Written(arcs) && !Closes(arcs, q) :: Value(arcs, table, q)
  }

  lemma {:induction false} ValueAtDest(arcs: seq<Arc>, table: map<int, File>, k: nat)
    requires DistinctDests(arcs) && SourcesOpen(arcs, table) && k < |arcs|
    requires arcs[k].Identity() ==> arcs[k].source in table
    ensures arcs[k].dest in table || IsWritten(arcs, arcs[k].dest)
    ensures Value(arcs, table, arcs[k].dest) == table[arcs[k].source]
    decreases arcs
  {
    if k > 0 {
      assert arcs[1..][k - 1] == arcs[k];
      ValueAtDest(arcs[1..], table, k - 1);
    } else if arcs[0].Identity() {
      assert !IsWritten(arcs, arcs[0].dest);
      ValueElsewhere(arcs, table, arcs[0].dest);
    }
  }

  lemma {:induction false} ValueElsewhere(arcs: seq<Arc>, table: map<int, File>, q: int)
    requires SourcesOpen(arcs, table) && q in table && !IsWritten(arcs, q)
    ensures Value(arcs, table, q) == table[q]
    decreases arcs
  {
    if arcs != [] {
      assert !IsWritten(arcs[1..], q);
      ValueElsewhere(arcs[1..], table, q);
    }
  }

  // ----------------------------------------------------------------------------------------------
  // What the inner loop does to the later arcs
  // ----------------------------------------------------------------------------------------------

  lemma {:induction false} RewireEnds(x: Arc, rest: seq<Arc>, temp: int)
    ensures var later := Rewire(x, rest, temp).1;
            forall k :: 0 <= k < |rest| ==>
              && later[k].dest == rest[k].dest
              && later[k].source == (if !x.Identity() && rest[k].source == x.dest then temp else rest[k].source)
    decreases rest
  {
    if rest != [] {
      RewireEnds(x.(close := Visit(x, rest[0], temp).0), rest[1..], temp);
    }
  }

  /** Only flags on arcs that share the source of `x` may be raised, and only if `x` was flagged. */
  lemma {:induction false} RewireFlags(x: Arc, rest: seq<Arc>, temp: int)
    requires x.Identity() || temp != x.source
    ensures var (c, later) := Rewire(x, rest, temp);
            && (c ==> x.close)
            && forall k :: 0 <= k < |rest| ==>
                 if !x.Identity() && rest[k].source == x.dest then !later[k].close
                 else if rest[k].source != x.source || !x.close then later[k].close == rest[k].close
                 else rest[k].close ==> later[k].close
    decreases rest
  {
    if rest != [] {
      RewireFlags(x.(close := Visit(x, rest[0], temp).0), rest[1..], temp);
    }
  }

  /** The flag of `x` survives the inner loop only if no later arc has anything to do with its source. */
  lemma {:induction false} RewireLast(x: Arc, rest: seq<Arc>, temp: int)
    requires x.Identity() || temp != x.source
    ensures Rewire(x, rest, temp).0 ==>
              forall k :: 0 <= k < |rest| ==> rest[k].dest != x.source && rest[k].source != x.source
    decreases rest
  {
    if rest != [] {
      var c := Visit(x, rest[0], temp).0;
      RewireLast(x.(close := c), rest[1..], temp);
      RewireFlags(x.(close := c), rest[1..], temp);
      assert forall k :: 0 < k < |rest| ==> rest[k] == rest[1..][k - 1];
    }
  }

  /** If no later arc writes the source of `x`, its flag is handed on to some later reader. */
  lemma {:induction false} RewireHandsOn(x: Arc, rest: seq<Arc>, temp: int, k: nat)
    requires x.Identity() || temp != x.source
    requires x.close && !IsDest(rest, x.source)
    requires k < |rest| && rest[k].source == x.source
    ensures WantsClosed(Rewire(x, rest, temp).1, x.source)
    decreases rest
  {
    var c := Visit(x, rest[0], temp).0;
    var later := Rewire(x, rest, temp).1;
    assert rest[0].dest != x.source;
    if rest[0].source == x.source {
      assert later[0].close && later[0].source == x.source;
    } else {
      assert rest[1..][k - 1] == rest[k];
      assert !IsDest(rest[1..], x.source);
      RewireHandsOn(x.(close := c), rest[1..], temp, k - 1);
      var tail := Rewire(x.(close := c), rest[1..], temp).1;
      var n :| 0 <= n < |tail| && tail[n].source == x.source && tail[n].close;
      assert later[n + 1] == tail[n];
    }
  }

  /** From the arc that writes the source of `x` on, no flag is raised. */
  lemma {:induction false} RewireStops(x: Arc, rest: seq<Arc>, temp: int, m: nat, k: nat)
    requires !x.Identity() && temp != x.source
    requires m <= k < |rest| && rest[m].dest == x.source && rest[k].source == x.source
    ensures Rewire(x, rest, temp).1[k].close == rest[k].close
    decreases rest
  {
    var c := Visit(x, rest[0], temp).0;
    if m == 0 {
      RewireFlags(x.(close := c), rest[1..], temp);
      if k > 0 { assert rest[1..][k - 1] == rest[k]; }
    } else {
      assert rest[1..][k - 1] == rest[k] && rest[1..][m - 1] == rest[m];
      RewireStops(x.(close := c), rest[1..], temp, m - 1, k - 1);
    }
  }

  // ----------------------------------------------------------------------------------------------
  // One arc keeps the meaning of the rest
  // ----------------------------------------------------------------------------------------------

  /** The table after Move and Close of arc `x`. */
  ghost function Carried(x: Arc, c: bool, table: map<int, File>): map<int, File>
    requires x.Identity() || x.source in table
  {
    if x.Identity() then table
    else table[x.dest := table[x.source]] - (if c then {x.source} else {})
  }

  /**
    `temp` is a fresh element where one is needed, though it may be a destination that was not open; it is
    not looked at where none is.
   */
  ghost predicate TempFits(arcs: seq<Arc>, table: map<int, File>, temp: int)
    requires arcs != []
  {
    if NeedsTemp(arcs[0], arcs[1..]) then temp !in table && !IsSource(arcs, temp) else temp == arcs[0].dest
  }

  ghost predicate StepPre(arcs: seq<Arc>, table: map<int, File>, temp: int) {
    && arcs != [] && DistinctDests(arcs) && SourcesOpen(arcs, table)
    && TempFits(arcs, table, temp)
    && (NeedsTemp(arcs[0], arcs[1..]) ==> arcs[0].dest in table)
  }

  ghost function Duplicated(arcs: seq<Arc>, table: map<int, File>, temp: int): (t: map<int, File>)
    requires StepPre(arcs, table, temp)
    ensures table.Keys <= t.Keys
  {
    if NeedsTemp(arcs[0], arcs[1..]) then table[temp := table[arcs[0].dest]] else table
  }

  ghost function TableAfter(arcs: seq<Arc>, table: map<int, File>, temp: int): map<int, File>
    requires StepPre(arcs, table, temp)
  {
    var x, rest := arcs[0], arcs[1..];
    Carried(x, Rewire(x, rest, temp).0, Duplicated(arcs, table, temp))
  }

  ghost function Later(arcs: seq<Arc>, temp: int): seq<Arc>
    requires arcs != []
  {
    Rewire(arcs[0], arcs[1..], temp).1
  }

  /** The temporary that carrying out arc 0 makes, if it makes one. */
  ghost function Temps(arcs: seq<Arc>, temp: int): set<int>
    requires arcs != []
  {
    if NeedsTemp(arcs[0], arcs[1..]) then {temp} else {}
  }

  /** And if that is no destination, so that nobody asked for it. */
  ghost function Loose(arcs: seq<Arc>, temp: int): set<int>
    requires arcs != []
  {
    if IsDest(arcs, temp) then {} else Temps(arcs, temp)
  }

  lemma StepBasics(arcs: seq<Arc>, table: map<int, File>, temp: int)
    requires StepPre(arcs, table, temp)
    ensures DistinctDests(Later(arcs, temp))
    ensures SourcesOpen(Later(arcs, temp), TableAfter(arcs, table, temp))
    ensures forall q :: IsDest(arcs, q) <==> q == arcs[0].dest || IsDest(Later(arcs, temp), q)
    ensures !IsDest(Later(arcs, temp), arcs[0].dest)
    ensures forall q :: q !in Temps(arcs, temp) ==>
              (IsWritten(arcs, q) <==>
                 (q == arcs[0].dest && !arcs[0].Identity()) || IsWritten(Later(arcs, temp), q))
  {
    var x, rest := arcs[0], arcs[1..];
    var later := Later(arcs, temp);
    RewireEnds(x, rest, temp);
    RewireLast(x, rest, temp);
    assert forall k :: 0 <= k < |rest| ==> rest[k] == arcs[k + 1] && later[k].dest == arcs[k + 1].dest;
    forall q ensures IsDest(arcs, q) <==> q == x.dest || IsDest(later, q) {
      if IsDest(arcs, q) && q != x.dest {
        var k :| 0 <= k < |arcs| && arcs[k].dest == q;
        assert later[k - 1].dest == q;
      }
      if IsDest(later, q) {
        var k :| 0 <= k < |later| && later[k].dest == q;
        assert arcs[k + 1].dest == q;
      }
    }
    StepIdentities(arcs, table, temp);
    forall k | 0 <= k < |later| && !later[k].Identity() ensures later[k].source in TableAfter(arcs, table, temp) {
      assert arcs[k + 1].Identity() || arcs[k + 1].source in table;
    }
    forall q | q !in Temps(arcs, temp)
      ensures IsWritten(arcs, q) <==> (q == x.dest && !x.Identity()) || IsWritten(later, q)
    {
      if IsWritten(arcs, q) && q != x.dest {
        var k :| 0 <= k < |arcs| && arcs[k].dest == q && !arcs[k].Identity();
        assert later[k - 1].dest == q && !later[k - 1].Identity();
      }
      if IsWritten(later, q) {
        var k :| 0 <= k < |later| && later[k].dest == q && !later[k].Identity();
        assert arcs[k + 1].dest == q && !arcs[k + 1].Identity();
      }
    }
  }

  /** An arc only becomes an identity if its destination is the temporary it now reads. */
  lemma StepIdentities(arcs: seq<Arc>, table: map<int, File>, temp: int)
    requires StepPre(arcs, table, temp)
    ensures var later := Later(arcs, temp);
            forall k :: 0 <= k < |later| ==>
              && (arcs[k + 1].Identity() ==> later[k].Identity())
              && (later[k].dest !in Temps(arcs, temp) && later[k].Identity() ==> arcs[k + 1].Identity())
  {
    var x, rest := arcs[0], arcs[1..];
    RewireEnds(x, rest, temp);
    assert forall k :: 0 <= k < |rest| ==> rest[k] == arcs[k + 1];
  }

  /** Elements that arc 0 neither reads nor writes. */
  lemma StepClosesElsewhere(arcs: seq<Arc>, table: map<int, File>, temp: int, q: int)
    requires StepPre(arcs, table, temp)
    requires q != arcs[0].source && q != arcs[0].dest && q != temp
    ensures Closes(arcs, q) <==> Closes(Later(arcs, temp), q)
  {
    var x, rest := arcs[0], arcs[1..];
    var later := Later(arcs, temp);
    StepBasics(arcs, table, temp);
    RewireEnds(x, rest, temp);
    RewireFlags(x, rest, temp);
    SameWants(arcs, later, q);
    SameClash(arcs, later, q, 0);
  }

  ghost predicate SameEnds(arcs: seq<Arc>, later: seq<Arc>, q: int) {
    |arcs| == |later| + 1 &&
    forall k :: 0 <= k < |later| ==>
      && later[k].dest == arcs[k + 1].dest
      && (later[k].source == q <==> arcs[k + 1].source == q)
  }

  ghost predicate SameFlags(arcs: seq<Arc>, later: seq<Arc>, q: int, from: nat)
    requires |arcs| == |later| + 1
  {
    forall k :: from <= k < |later| && later[k].source == q ==> later[k].close == arcs[k + 1].close
  }

  lemma SameWants(arcs: seq<Arc>, later: seq<Arc>, q: int)
    requires SameEnds(arcs, later, q) && SameFlags(arcs, later, q, 0) && arcs[0].source != q
    ensures WantsClosed(arcs, q) <==> WantsClosed(later, q)
  {
    if WantsClosed(arcs, q) {
      var k :| 0 <= k < |arcs| && arcs[k].source == q && arcs[k].close;
      assert later[k - 1].source == q && later[k - 1].close;
    }
    if WantsClosed(later, q) {
      var k :| 0 <= k < |later| && later[k].source == q && later[k].close;
      assert arcs[k + 1].source == q && arcs[k + 1].close;
    }
  }

  lemma SameClash(arcs: seq<Arc>, later: seq<Arc>, q: int, from: nat)
    requires SameEnds(arcs, later, q) && SameFlags(arcs, later, q, from) && arcs[0].dest != q
    requires forall k :: 0 <= k < |later| && later[k].dest == q ==> from <= k
    ensures ClashAt(arcs, q) <==> ClashAt(later, q)
  {
    if ClashAt(arcs, q) {
      var m, j :| 0 <= m < j < |arcs| && arcs[m].source == arcs[m].dest == arcs[j].source == q &&
                  (arcs[m].close || arcs[j].close);
      assert later[m - 1].source == later[m - 1].dest == later[j - 1].source == q;
    }
    if ClashAt(later, q) {
      var m, j :| 0 <= m < j < |later| && later[m].source == later[m].dest == later[j].source == q &&
                  (later[m].close || later[j].close);
      assert arcs[m + 1].source == arcs[m + 1].dest == arcs[j + 1].source == q;
    }
  }

  /** The element arc 0 overwrites is closed by neither: nobody reads it any more. */
  lemma StepClosesDest(arcs: seq<Arc>, table: map<int, File>, temp: int)
    requires StepPre(arcs, table, temp) && !arcs[0].Identity()
    ensures !Closes(arcs, arcs[0].dest) && !Closes(Later(arcs, temp), arcs[0].dest)
  {
    var x, rest := arcs[0], arcs[1..];
    var later := Later(arcs, temp);
    RewireEnds(x, rest, temp);
    assert IsDest(arcs, x.dest);
    if !NeedsTemp(x, rest) {
      forall k | 0 <= k < |later| ensures later[k].source != x.dest {
        assert rest[k].source != x.dest;
      }
    }
  }

  /** The element arc 0 reads is closed now, or later, or not at all, as `Closes` says. */
  lemma StepClosesSource(arcs: seq<Arc>, table: map<int, File>, temp: int)
    requires StepPre(arcs, table, temp) && !arcs[0].Identity()
    ensures var (c, later) := Rewire(arcs[0], arcs[1..], temp);
            && (Closes(arcs, arcs[0].source) <==> c || Closes(later, arcs[0].source))
            && (c ==> !IsDest(later, arcs[0].source))
  {
    var x, rest := arcs[0], arcs[1..];
    var s := x.source;
    var (c, later) := Rewire(x, rest, temp);
    assert SourcesOpen(arcs, table) && arcs[0].source in table;
    StepBasics(arcs, table, temp);
    RewireEnds(x, rest, temp);
    RewireFlags(x, rest, temp);
    RewireLast(x, rest, temp);
    if IsDest(later, s) {
      var m :| 0 <= m < |later| && later[m].dest == s;
      forall k | m <= k < |later| && later[k].source == s ensures later[k].close == arcs[k + 1].close {
        assert arcs[k + 1] == rest[k];
        RewireStops(x, rest, temp, m, k);
      }
      forall k | 0 <= k < m ensures later[k].dest != s {
        assert arcs[k + 1].dest != arcs[m + 1].dest;
      }
      SameClash(arcs, later, s, m);
    } else {
      assert !ClashAt(arcs, s);
      if WantsClosed(arcs, s) && !c {
        StepHandsOn(arcs, temp);
      }
      if WantsClosed(later, s) {
        var k :| 0 <= k < |later| && later[k].source == s && later[k].close;
        assert arcs[k + 1] == rest[k];
        assert x.close || arcs[k + 1].close;
        assert arcs[0].close || arcs[k + 1].close;
      }
      if c { assert arcs[0].close; }
    }
  }

  lemma StepHandsOn(arcs: seq<Arc>, temp: int)
    requires arcs != [] && temp != arcs[0].source && !IsDest(arcs[1..], arcs[0].source)
    requires WantsClosed(arcs, arcs[0].source) && !Rewire(arcs[0], arcs[1..], temp).0
    ensures WantsClosed(Later(arcs, temp), arcs[0].source)
  {
    var x, rest := arcs[0], arcs[1..];
    var later := Later(arcs, temp);
    RewireEnds(x, rest, temp);
    RewireFlags(x, rest, temp);
    assert forall k :: 0 < k < |arcs| ==> rest[k - 1] == arcs[k];
    if k :| 0 <= k < |rest| && rest[k].source == x.source {
      if x.close {
        RewireHandsOn(x, rest, temp, k);
      } else {
        var n :| 0 <= n < |arcs| && arcs[n].source == x.source && arcs[n].close;
        assert rest[n - 1] == arcs[n] && later[n - 1].close;
      }
    } else {
      var n :| 0 <= n < |arcs| && arcs[n].source == x.source && arcs[n].close;
      RewireUnread(x, rest, temp);
    }
  }

  /** With no reader and no writer of its source among the later arcs, `x` keeps its flag. */
  lemma {:induction false} RewireUnread(x: Arc, rest: seq<Arc>, temp: int)
    requires x.Identity() || temp != x.source
    requires forall k :: 0 <= k < |rest| ==> rest[k].source != x.source && rest[k].dest != x.source
    ensures Rewire(x, rest, temp).0 == x.close
    decreases rest
  {
    if rest != [] {
      RewireUnread(x.(close := Visit(x, rest[0], temp).0), rest[1..], temp);
    }
  }

  /** An arc that leaves its element in place: what it hands on is exactly a clash. */
  lemma StepClosesIdentity(arcs: seq<Arc>, table: map<int, File>, temp: int)
    requires StepPre(arcs, table, temp) && arcs[0].Identity()
    ensures Closes(arcs, arcs[0].source) <==> Closes(Later(arcs, temp), arcs[0].source)
  {
    var x, rest := arcs[0], arcs[1..];
    var s := x.source;
    var later := Later(arcs, temp);
    StepBasics(arcs, table, temp);
    RewireEnds(x, rest, temp);
    RewireFlags(x, rest, temp);
    assert IsDest(arcs, s) && !IsDest(later, s);
    if ClashAt(arcs, s) {
      var m, j :| 0 <= m < j < |arcs| && arcs[m].source == arcs[m].dest == arcs[j].source == s &&
                  (arcs[m].close || arcs[j].close);
      assert m == 0;
      assert rest[j - 1] == arcs[j];
      assert !IsDest(rest, s);
      if x.close {
        RewireHandsOn(x, rest, temp, j - 1);
      } else {
        assert later[j - 1].close && later[j - 1].source == s;
      }
    }
    if WantsClosed(later, s) {
      var k :| 0 <= k < |later| && later[k].source == s && later[k].close;
      assert arcs[k + 1] == rest[k] && arcs[k + 1].source == s;
      assert arcs[0].close || arcs[k + 1].close;
    }
  }

  /** A later arc still finds the file it is to copy, if need be in the temporary. */
  lemma StepSource(arcs: seq<Arc>, table: map<int, File>, temp: int, k: nat)
    requires StepPre(arcs, table, temp) && 0 < k < |arcs| && !arcs[k].Identity()
    ensures var later, after := Later(arcs, temp), TableAfter(arcs, table, temp);
            && later[k - 1].source in after
            && after[later[k - 1].source] == table[arcs[k].source]
  {
    var x, rest := arcs[0], arcs[1..];
    RewireEnds(x, rest, temp);
    RewireLast(x, rest, temp);
    assert rest[k - 1] == arcs[k];
    assert arcs[k].source in table;
  }

  lemma StepValueWritten(arcs: seq<Arc>, table: map<int, File>, temp: int, k: nat)
    requires StepPre(arcs, table, temp) && 0 < k < |arcs| && !arcs[k].Identity()
    ensures SourcesOpen(Later(arcs, temp), TableAfter(arcs, table, temp))
    ensures var q, later, after := arcs[k].dest, Later(arcs, temp), TableAfter(arcs, table, temp);
            && IsWritten(arcs, q) && (q in after || IsWritten(later, q))
            && Value(arcs, table, q) == Value(later, after, q)
  {
    StepBasics(arcs, table, temp);
    StepSource(arcs, table, temp, k);
    RewireEnds(arcs[0], arcs[1..], temp);
    ValueAtDest(arcs, table, k);
    assert arcs[1..][k - 1] == arcs[k];
    ValueAtDest(Later(arcs, temp), TableAfter(arcs, table, temp), k - 1);
  }

  lemma StepValue(arcs: seq<Arc>, table: map<int, File>, temp: int, q: int)
    requires StepPre(arcs, table, temp)
    requires q in table || IsWritten(arcs, q)
    ensures SourcesOpen(Later(arcs, temp), TableAfter(arcs, table, temp))
    ensures q in TableAfter(arcs, table, temp) || IsWritten(Later(arcs, temp), q) ==>
              Value(arcs, table, q) == Value(Later(arcs, temp), TableAfter(arcs, table, temp), q)
  {
    var x, later, after := arcs[0], Later(arcs, temp), TableAfter(arcs, table, temp);
    StepBasics(arcs, table, temp);
    if q == x.dest && !x.Identity() {
      ValueAtDest(arcs, table, 0);
      assert !IsWritten(later, q);
      if q in after { ValueElsewhere(later, after, q); }
    } else if k :| 0 <= k < |arcs| && arcs[k].dest == q && !arcs[k].Identity() {
      StepValueWritten(arcs, table, temp, k);
    } else {
      assert !IsWritten(arcs, q) && !IsWritten(later, q);
      ValueElsewhere(arcs, table, q);
      if q in after { ValueElsewhere(later, after, q); }
    }
  }

  /** Is `q` in the table the remaining arcs are to leave behind? */
  lemma StepMembers(arcs: seq<Arc>, table: map<int, File>, temp: int, q: int)
    requires StepPre(arcs, table, temp) && q !in Temps(arcs, temp)
    ensures SourcesOpen(Later(arcs, temp), TableAfter(arcs, table, temp))
    ensures q in Final(arcs, table) <==> q in Final(Later(arcs, temp), TableAfter(arcs, table, temp))
  {
    var x, rest := arcs[0], arcs[1..];
    var later := Later(arcs, temp);
    StepBasics(arcs, table, temp);
    RewireLast(x, rest, temp);
    assert IsWritten(arcs, q) <==> q in Written(arcs);
    assert IsWritten(later, q) <==> q in Written(later);
    if x.Identity() {
      if q == x.source { StepClosesIdentity(arcs, table, temp); }
      else { StepClosesElsewhere(arcs, table, temp, q); }
    } else if q == x.dest {
      StepClosesDest(arcs, table, temp);
    } else if q == x.source {
      StepClosesSource(arcs, table, temp);
    } else {
      StepClosesElsewhere(arcs, table, temp, q);
    }
  }

  /** The temporary stays; only if it is a destination is it part of the table that was asked for. */
  lemma StepMembersTemp(arcs: seq<Arc>, table: map<int, File>, temp: int)
    requires StepPre(arcs, table, temp) && NeedsTemp(arcs[0], arcs[1..])
    ensures SourcesOpen(Later(arcs, temp), TableAfter(arcs, table, temp))
    ensures temp in Final(Later(arcs, temp), TableAfter(arcs, table, temp))
    ensures temp in Final(arcs, table) <==> IsDest(arcs, temp)
  {
    var x, rest := arcs[0], arcs[1..];
    var later := Later(arcs, temp);
    StepBasics(arcs, table, temp);
    RewireEnds(x, rest, temp);
    RewireFlags(x, rest, temp);
    forall k | 0 <= k < |later| && later[k].source == temp ensures !later[k].close {
      assert rest[k] == arcs[k + 1];
      assert IsSource(arcs, arcs[k + 1].source);
    }
    assert IsDest(arcs, temp) <==> IsWritten(arcs, temp);
    assert IsWritten(arcs, temp) <==> temp in Written(arcs);
  }

  /**
    Carrying out one arc keeps the meaning of the whole: the rest still asks for the same table, and for a
    temporary that is no destination.
   */
  lemma StepKeepsMeaning(arcs: seq<Arc>, table: map<int, File>, temp: int)
    requires StepPre(arcs, table, temp)
    ensures SourcesOpen(Later(arcs, temp), TableAfter(arcs, table, temp))
    ensures var after := Final(Later(arcs, temp), TableAfter(arcs, table, temp));
            && Final(arcs, table) == after - Loose(arcs, temp)
            && Temps(arcs, temp) <= after.Keys
  {
    var later := Later(arcs, temp);
    var after := TableAfter(arcs, table, temp);
    StepBasics(arcs, table, temp);
    var before, now := Final(arcs, table), Final(later, after);
    var loose := Loose(arcs, temp);
    StepKeepsMembers(arcs, table, temp);
    forall q | q in before ensures before[q] == now[q] {
      assert IsWritten(arcs, q) <==> q in Written(arcs);
      assert IsWritten(later, q) <==> q in Written(later);
      StepValue(arcs, table, temp, q);
    }
    assert (now - loose).Keys == before.Keys;
  }

  lemma StepKeepsMembers(arcs: seq<Arc>, table: map<int, File>, temp: int)
    requires StepPre(arcs, table, temp) && SourcesOpen(Later(arcs, temp), TableAfter(arcs, table, temp))
    ensures var after := Final(Later(arcs, temp), TableAfter(arcs, table, temp));
            && Final(arcs, table).Keys == after.Keys - Loose(arcs, temp)
            && Temps(arcs, temp) <= after.Keys
  {
    var before, now := Final(arcs, table), Final(Later(arcs, temp), TableAfter(arcs, table, temp));
    var loose := Loose(arcs, temp);
    if NeedsTemp(arcs[0], arcs[1..]) { StepMembersTemp(arcs, table, temp); }
    forall q ensures q in before <==> q in now && q !in loose {
      if q !in Temps(arcs, temp) { StepMembers(arcs, table, temp, q); }
    }
  }
}
