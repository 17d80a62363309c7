/**
  base/file_descriptor_shuffle.cc as it is written: loops that rewrite an array of arcs and act on a
  mutable table, proved against the algorithm as a function.
 */
module FileDescriptorShuffleInPlace {
  import opened Basics
  import opened FileDescriptorShuffle
  import opened FileDescriptorRuns
  import opened FileDescriptorResults

  /** The delegate, with the process's table behind it. */
  class InjectionDelegate {
    var table: map<int, File>
    const reserved: set<int>
    var dups: seq<int>
    var moves: seq<bool>
    var badCloses: nat

    constructor (w: Domain)
      ensures State() == w
    {
      table, reserved, dups, moves, badCloses := w.table, w.reserved, w.dups, w.moves, w.badCloses;
    }

    function State(): Domain
      reads this
    {
      Domain(table, reserved, dups, moves, badCloses)
    }

    method Duplicate(fd: int) returns (ok: bool, result: int)
      modifies this
      ensures State() == old(State()).Duplicate(fd)
      ensures ok == old(State()).DupAnswer(fd).Some?
      ensures ok ==> result == old(State()).DupAnswer(fd).value
    {
      var answer := State().DupAnswer(fd);
      ok, result := answer.Some?, -1;
      if ok {
        result := answer.value;
        table := table[result := table[fd]];
      }
      if |dups| > 0 {
        dups := dups[1..];
      }
    }

    method Move(src: int, dest: int) returns (ok: bool)
      modifies this
      ensures State() == old(State()).Move(src, dest)
      ensures ok == old(State()).MoveSucceeds(src)
    {
      ok := State().MoveSucceeds(src);
      if ok {
        table := table[dest := table[src]];
      }
      if |moves| > 0 {
        moves := moves[1..];
      }
    }

    method Close(fd: int)
      modifies this
      ensures State() == old(State()).Close(fd)
    {
      if fd in table {
        table := table - {fd};
      } else {
        badCloses := badCloses + 1;
      }
    }
  }

  /** What `Rewire` leaves of the arcs before index `j`, and what is still to be visited. */
  ghost predicate Scanned(m: seq<Arc>, i: nat, j: nat, x: Arc, m0: seq<Arc>, temp: int)
    requires i < j <= |m| == |m0|
  {
    && m[i] == x
    && m[j..] == m0[j..]
    && Rewire(m0[i], m0[i + 1..], temp) ==
         (Rewire(x, m[j..], temp).0, m[i + 1..j] + Rewire(x, m[j..], temp).1)
  }

  lemma ScanStep(m: seq<Arc>, next: seq<Arc>, i: nat, j: nat, x: Arc, m0: seq<Arc>, temp: int)
    requires i < j < |m| == |next| == |m0| && Scanned(m, i, j, x, m0, temp)
    requires next == m[j := Visit(x, m[j], temp).1][i := x.(close := Visit(x, m[j], temp).0)]
    ensures Scanned(next, i, j + 1, x.(close := Visit(x, m[j], temp).0), m0, temp)
  {
    var (c, a) := Visit(x, m[j], temp);
    assert m[j..][1..] == m[j + 1..] == next[j + 1..] == m0[j + 1..];
    assert next[i + 1..j + 1] == m[i + 1..j] + [a];
    var tail := Rewire(x.(close := c), m[j + 1..], temp).1;
    assert m[i + 1..j] + ([a] + tail) == m[i + 1..j] + [a] + tail;
  }

  /** A temporary for `fd`, noted in the fixed buffer as long as there is room. */
  method DuplicateAndRemember(fd: int, delegate: InjectionDelegate, extraFds: array<int>, next: nat)
    returns (ok: bool, tempFd: int, next': nat)
    requires next <= extraFds.Length == MAX_EXTRA_FDS
    modifies delegate, extraFds
    ensures next <= next' <= extraFds.Length
    ensures delegate.State() == old(delegate.State()).Duplicate(fd)
    ensures ok == old(delegate.State()).DupAnswer(fd).Some?
    ensures ok ==> && old(delegate.State()).DupAnswer(fd) == Some(tempFd)
                   && extraFds[..next'] == Remember(old(extraFds[..next]), tempFd)
  {
    next' := next;
    ok, tempFd := delegate.Duplicate(fd);
    if ok && next' < extraFds.Length {
      extraFds[next'] := tempFd;
      next' := next' + 1;
    }
  }

  /** The three tests of the inner loop, for arcs `i` and `j`. */
  method VisitInPlace(m: array<Arc>, i: nat, j: nat, tempFd: int)
    requires i < j < m.Length
    modifies m
    ensures var (c, a) := Visit(old(m[i]), old(m[j]), tempFd);
            m[..] == old(m[..])[j := a][i := old(m[i]).(close := c)]
  {
    if m[i].source != m[i].dest && m[i].dest == m[j].source {
      m[j] := m[j].(source := tempFd, close := false);
    }
    if m[i].close && m[i].source == m[j].dest {
      m[i] := m[i].(close := false);
    }
    if m[i].close && m[i].source == m[j].source {
      m[i] := m[i].(close := false);
      m[j] := m[j].(close := true);
    }
  }

  /** Before visit `j`: a temporary exists if and only if an earlier visit needed it. */
  ghost predicate Progress(m: seq<Arc>, i: nat, j: nat, m0: seq<Arc>, w0: Domain, extra0: seq<int>, tempFd: int,
          w: Domain, extra: seq<int>)
    requires i < j <= |m| == |m0|
  {
    var x0, rest0 := m0[i], m0[i + 1..];
    && m[i].source == x0.source && m[i].dest == x0.dest
    && Scanned(m, i, j, m[i], m0, TempFor(x0, rest0, w0))
    && if tempFd == -1 then
         && w == w0 && extra == extra0
         && (x0.Identity() || forall k :: i < k < j ==> m0[k].source != x0.dest)
       else
         && NeedsTemp(x0, rest0) && w0.DupAnswer(x0.dest) == Some(tempFd)
         && w == w0.Duplicate(x0.dest) && extra == Remember(extra0, tempFd)
  }

  lemma ProgressStep(m: seq<Arc>, next: seq<Arc>, i: nat, j: nat, m0: seq<Arc>, w0: Domain, extra0: seq<int>,
          tempFd: int, w: Domain, extra: seq<int>, newTempFd: int, newW: Domain, newExtra: seq<int>)
    requires i < j < |m| == |next| == |m0| && Progress(m, i, j, m0, w0, extra0, tempFd, w, extra)
    requires if !m[i].Identity() && m[i].dest == m[j].source && tempFd == -1 then
               && w.DupAnswer(m[i].dest) == Some(newTempFd) && newW == w.Duplicate(m[i].dest)
               && newExtra == Remember(extra, newTempFd)
             else newTempFd == tempFd && newW == w && newExtra == extra
    requires next == m[j := Visit(m[i], m[j], newTempFd).1][i := m[i].(close := Visit(m[i], m[j], newTempFd).0)]
    ensures Progress(next, i, j + 1, m0, w0, extra0, newTempFd, newW, newExtra)
  {
    var x0, rest0 := m0[i], m0[i + 1..];
    var temp := TempFor(x0, rest0, w0);
    assert m[j..][0] == m0[j..][0] == rest0[j - i - 1];
    assert Visit(m[i], m[j], newTempFd) == Visit(m[i], m[j], temp);
    ScanStep(m, next, i, j, m[i], m0, temp);
  }

  lemma ProgressDone(m: seq<Arc>, i: nat, m0: seq<Arc>, w0: Domain, extra0: seq<int>, tempFd: int, w: Domain,
          extra: seq<int>)
    requires i < |m| == |m0| && Progress(m, i, |m|, m0, w0, extra0, tempFd, w, extra)
    ensures NeedsTemp(m0[i], m0[i + 1..]) <==> tempFd != -1
    ensures Rewire(m0[i], m0[i + 1..], TempFor(m0[i], m0[i + 1..], w0)) == (m[i].close, m[i + 1..])
  {
    assert m[|m|..] == [];
    assert m[i + 1..|m|] + [] == m[i + 1..];
    var rest0 := m0[i + 1..];
    assert forall k :: i < k < |m0| ==> m0[k] == rest0[k - i - 1];
  }

  /** The temporary carrying out `x` goes through; if it needs none, a value `Rewire` does not look at. */
  ghost function TempFor(x: Arc, rest: seq<Arc>, w: Domain): int {
    if NeedsTemp(x, rest) && w.DupAnswer(x.dest).Some? then w.DupAnswer(x.dest).value else x.dest
  }

  /** The inner loop of the source: redirect the later readers of the destination, settle the close flag. */
  method RewireInPlace(m: array<Arc>, i: nat, delegate: InjectionDelegate, extraFds: array<int>, next: nat)
    returns (ok: bool, next': nat)
    requires i < m.Length && next <= extraFds.Length == MAX_EXTRA_FDS
    modifies m, delegate, extraFds
    ensures next <= next' <= extraFds.Length
    ensures var x, rest, w := old(m[i]), old(m[i + 1..]), old(delegate.State());
            if !NeedsTemp(x, rest) then
              ok && delegate.State() == w && extraFds[..next'] == old(extraFds[..next])
            else
              && delegate.State() == w.Duplicate(x.dest)
              && ok == w.DupAnswer(x.dest).Some?
              && (ok ==> extraFds[..next'] == Remember(old(extraFds[..next]), w.DupAnswer(x.dest).value))
    ensures var x, rest := old(m[i]), old(m[i + 1..]);
            ok ==> && m[i].source == x.source && m[i].dest == x.dest
                   && (m[i].close, m[i + 1..]) == Rewire(x, rest, TempFor(x, rest, old(delegate.State())))
  {
    ghost var m0, w0, extra0 := m[..], delegate.State(), extraFds[..next];
    ghost var later := Rewire(m0[i], m0[i + 1..], TempFor(m0[i], m0[i + 1..], w0)).1;
    assert m0[i + 1..i + 1] + later == later;
    next' := next;

    var tempFd := -1;
    var isIdentity := m[i].source == m[i].dest;
    var j := i + 1;
    while j < m.Length
      invariant i < j <= m.Length && next <= next' <= extraFds.Length
      invariant isIdentity == m0[i].Identity()
      invariant Progress(m[..], i, j, m0, w0, extra0, tempFd, delegate.State(), extraFds[..next'])
    {
      ghost var before, was, w, extra := m[..], tempFd, delegate.State(), extraFds[..next'];
      if !isIdentity && m[i].dest == m[j].source && tempFd == -1 {
        assert before[j..][0] == m0[i + 1..][j - i - 1];
        ok, tempFd, next' := DuplicateAndRemember(m[i].dest, delegate, extraFds, next');
        if !ok {
          return false, next';
        }
      }
      VisitInPlace(m, i, j, tempFd);
      ProgressStep(before, m[..], i, j, m0, w0, extra0, was, w, extra, tempFd, delegate.State(), extraFds[..next']);
      j := j + 1;
    }
    ProgressDone(m[..], i, m0, w0, extra0, tempFd, delegate.State(), extraFds[..next']);
    return true, next';
  }

  method PerformInjectiveMultimapDestructive(m: array<Arc>, delegate: InjectionDelegate) returns (ok: bool)
    modifies m, delegate
    ensures (ok, delegate.State()) == Run(old(m[..]), old(delegate.State()), [])
  {
    var extraFds := new int[MAX_EXTRA_FDS](_ => 0);
    var nextExtraFd := 0;

    var i := 0;
    while i < m.Length
      invariant 0 <= i <= m.Length && 0 <= nextExtraFd <= extraFds.Length == MAX_EXTRA_FDS
      invariant Run(m[i..], delegate.State(), extraFds[..nextExtraFd]) == Run(old(m[..]), old(delegate.State()), [])
    {
      assert m[i..][0] == m[i] && m[i..][1..] == m[i + 1..];
      ok, nextExtraFd := RewireInPlace(m, i, delegate, extraFds, nextExtraFd);
      if !ok {
        return false;
      }
      var isIdentity := m[i].source == m[i].dest;
      if !isIdentity {
        ok := delegate.Move(m[i].source, m[i].dest);
        if !ok {
          return false;
        }
      }
      if !isIdentity && m[i].close {
        delegate.Close(m[i].source);
      }
      i := i + 1;
    }

    i := 0;
    while i < nextExtraFd
      invariant 0 <= i <= nextExtraFd <= extraFds.Length
      invariant (true, CloseAll(delegate.State(), extraFds[i..nextExtraFd]))
             == Run(old(m[..]), old(delegate.State()), [])
    {
      assert extraFds[i..nextExtraFd][1..] == extraFds[i + 1..nextExtraFd];
      delegate.Close(extraFds[i]);
      i := i + 1;
    }
    return true;
  }

  /** The entry point that leaves the caller's multimap alone, with what the header promises of it. */
  method PerformInjectiveMultimap(mIn: seq<Arc>, delegate: InjectionDelegate) returns (ok: bool)
    requires DistinctDests(mIn) && SourcesKnown(mIn, delegate.State())
    modifies delegate
    ensures (ok, delegate.State()) == Run(mIn, old(delegate.State()), [])
    ensures ok && !LateMisfit(mIn, old(delegate.dups)) ==>
              (Shuffled(mIn, old(delegate.table), delegate.table) <==>
                 !Clash(mIn) && DupsFit(mIn, old(delegate.dups)) && TempCount(mIn) <= MAX_EXTRA_FDS)
    ensures SourcesOpen(mIn, old(delegate.table)) && Willing(mIn, old(delegate.State())) ==> ok
  {
    var m := new Arc[|mIn|](i requires 0 <= i < |mIn| => mIn[i]);
    assert m[..] == mIn;
    ghost var w := delegate.State();
    RunShuffles(mIn, w);
    if SourcesOpen(mIn, w.table) && Willing(mIn, w) {
      WillingRunSucceeds(mIn, w, []);
    }
    ok := PerformInjectiveMultimapDestructive(m, delegate);
  }
}
