/** When splitting undoes printing: exactly for the arguments described by Survives. */
module CommandLineRoundTrip {
  import opened Basics
  import opened CommandLines

  // ----------------------------------------------------------------------------------------------
  // The condition
  // ----------------------------------------------------------------------------------------------

  /** The printed form of the text is read as one piece. */
  predicate ReadsAsOne(text: string) {
    NeedsQuotes(text) || TAB !in text
  }

  predicate Survives(arg: string, parse: bool) {
    if parse && HasSwitchPrefix(arg) then
      && SPACE !in SwitchName(arg) && TAB !in SwitchName(arg) && QUOTE !in SwitchName(arg)
      && (EQUALS in arg ==> SwitchValue(arg) != "" && ReadsAsOne(SwitchValue(arg)))
    else arg != "" && ReadsAsOne(arg)
  }

  predicate AllSurvive(args: seq<string>, parse: bool)
    decreases args
  {
    args == [] ||
    var p := parse && args[0] != SWITCH_TERMINATOR;
    Survives(args[0], p) && AllSurvive(args[1..], p)
  }

  // ----------------------------------------------------------------------------------------------
  // Reading literally
  // ----------------------------------------------------------------------------------------------

  function PutAll(scan: Scan, s: string): Scan
    decreases s
  {
    if s == "" then scan else PutAll(Put(scan, s[0]), s[1..])
  }

  lemma {:induction false} FeedSum(scan: Scan, a: string, b: string)
    ensures Feed(scan, a + b) == Feed(Feed(scan, a), b)
    decreases a
  {
    if a == "" {
      assert a + b == b;
    } else {
      assert (a + b)[1..] == a[1..] + b;
      FeedSum(Step(scan, a[0]), a[1..], b);
    }
  }

  lemma {:induction false} PutAllSum(scan: Scan, a: string, b: string)
    ensures PutAll(scan, a + b) == PutAll(PutAll(scan, a), b)
    decreases a
  {
    if a == "" {
      assert a + b == b;
    } else {
      assert (a + b)[1..] == a[1..] + b;
      PutAllSum(Put(scan, a[0]), a[1..], b);
    }
  }

  lemma {:induction false} FeedBackslashes(scan: Scan, n: nat)
    ensures Feed(scan, Backslashes(n)) ==
              if n == 0 then scan else scan.(slashes := scan.slashes + n, started := true)
  {
    if n > 0 {
      FeedBackslashes(scan, n - 1);
      FeedSum(scan, Backslashes(n - 1), [BACKSLASH]);
    }
  }

  lemma {:induction false} PutBackslashes(scan: Scan, n: nat)
    ensures PutAll(scan, Backslashes(n)) ==
              if n == 0 then scan else scan.(current := scan.current + Backslashes(n), started := true)
  {
    if n > 0 {
      PutBackslashes(scan, n - 1);
      PutAllSum(scan, Backslashes(n - 1), [BACKSLASH]);
    }
  }

  lemma FeedTwo(scan: Scan, a: char, b: char)
    ensures Feed(scan, [a, b]) == Step(Step(scan, a), b)
  {
    FeedSum(scan, [a], [b]);
    assert [a] + [b] == [a, b];
  }

  /** After an escaped run of backslashes, with the quote it was doubled for. */
  lemma RunBeforeQuote(scan: Scan, n: nat)
    requires scan.slashes == 0
    ensures Feed(scan, Backslashes(2 * n) + [QUOTE]) == Toggle(PutAll(scan, Backslashes(n)))
    ensures Feed(scan, Backslashes(2 * n) + [BACKSLASH, QUOTE]) == Put(PutAll(scan, Backslashes(n)), QUOTE)
  {
    FeedBackslashes(scan, 2 * n);
    FeedSum(scan, Backslashes(2 * n), [QUOTE]);
    FeedSum(scan, Backslashes(2 * n), [BACKSLASH, QUOTE]);
    PutBackslashes(scan, n);
    var run := Feed(scan, Backslashes(2 * n));
    assert Feed(run, [QUOTE]) == Step(run, QUOTE);
    FeedTwo(run, BACKSLASH, QUOTE);
    assert Backslashes(0) == "" && scan.current + "" == scan.current;
  }

  function Toggle(scan: Scan): Scan {
    scan.(quoted := !scan.quoted, started := true)
  }

  lemma RunBeforeOther(scan: Scan, n: nat, c: char)
    requires scan.slashes == 0 && c != BACKSLASH && c != QUOTE
    ensures Feed(scan, Backslashes(n) + [c]) == Put(PutAll(scan, Backslashes(n)), c)
  {
    FeedBackslashes(scan, n);
    FeedSum(scan, Backslashes(n), [c]);
    PutBackslashes(scan, n);
    assert Backslashes(0) == "" && scan.current + "" == scan.current;
  }

  /** Escape, one run of backslashes and the character after it at a time. */
  ghost function EscapeByRuns(s: string, n: nat): string
    requires n <= |s|
  {
    if n == |s| then Backslashes(2 * n)
    else if s[n] == QUOTE then Backslashes(2 * n) + [BACKSLASH, QUOTE] + Escape(s[n + 1..])
    else Backslashes(n) + [s[n]] + Escape(s[n + 1..])
  }

  lemma {:induction false} EscapeRun(s: string)
    ensures Escape(s) == EscapeByRuns(s, LeadingBackslashes(s))
  {
    var n := LeadingBackslashes(s);
    assert Backslashes(0) == "";
    if 0 < n < |s| {
      EscapeOther(s, n);
      Regroup(Backslashes(2 * n), [BACKSLASH, QUOTE], Escape(s[n + 1..]));
      Regroup(Backslashes(n), [s[n]], Escape(s[n + 1..]));
    } else if n == 0 && s != "" {
      assert "" + ([s[0]] + Escape(s[1..])) == [s[0]] + Escape(s[1..]) == "" + [s[0]] + Escape(s[1..]);
    }
  }

  lemma EscapeOther(s: string, n: nat)
    requires n < |s| && s[n] != BACKSLASH
    ensures Escape(s[n..]) == (if s[n] == QUOTE then [BACKSLASH, QUOTE] else [s[n]]) + Escape(s[n + 1..])
  {
    assert s[n..][1..] == s[n + 1..];
  }

  /** Escaped text up to the closing quote is read literally, whether or not a quote was open before. */
  lemma {:induction false} EscapeReads(scan: Scan, s: string)
    requires scan.slashes == 0
    ensures Feed(scan, Escape(s) + [QUOTE]) == Toggle(PutAll(scan, s))
    decreases |s|
  {
    var n := LeadingBackslashes(s);
    EscapeRun(s);
    if n == |s| {
      assert s[..n] == s;
      RunBeforeQuote(scan, n);
    } else {
      var rest := s[n + 1..];
      var run := Put(PutAll(scan, Backslashes(n)), s[n]);
      PutRun(scan, s, n);
      if s[n] == QUOTE {
        RunBeforeQuote(scan, n);
        Onward(scan, Backslashes(2 * n) + [BACKSLASH, QUOTE], Escape(rest));
      } else {
        RunBeforeOther(scan, n, s[n]);
        Onward(scan, Backslashes(n) + [s[n]], Escape(rest));
      }
      EscapeReads(run, rest);
    }
  }

  lemma PutRun(scan: Scan, s: string, n: nat)
    requires n < |s| && s[..n] == Backslashes(n)
    ensures PutAll(scan, s) == PutAll(Put(PutAll(scan, Backslashes(n)), s[n]), s[n + 1..])
    ensures scan.slashes == 0 ==> Put(PutAll(scan, Backslashes(n)), s[n]).slashes == 0
  {
    assert s == s[..n] + s[n..] && s[n..][1..] == s[n + 1..];
    PutAllSum(scan, s[..n], s[n..]);
    PutBackslashes(scan, n);
  }

  lemma Onward(scan: Scan, head: string, rest: string)
    ensures Feed(scan, head + rest + [QUOTE]) == Feed(Feed(scan, head), rest + [QUOTE])
  {
    assert head + rest + [QUOTE] == head + (rest + [QUOTE]);
    FeedSum(scan, head, rest + [QUOTE]);
  }

  /** Text that needs no quotes, or a switch name: every character but a quote is read literally in the end. */
  lemma {:induction false} PlainReads(scan: Scan, s: string)
    requires QUOTE !in s
    ensures Settle(Feed(scan, s)) == PutAll(Settle(scan), s)
    ensures s != "" && s[|s| - 1] != BACKSLASH ==> Feed(scan, s) == PutAll(Settle(scan), s)
    decreases s
  {
    if s != "" {
      PlainStep(scan, s[0]);
      PlainReads(Step(scan, s[0]), s[1..]);
    }
  }

  lemma PlainStep(scan: Scan, c: char)
    requires c != QUOTE
    ensures Settle(Step(scan, c)) == Put(Settle(scan), c)
    ensures c != BACKSLASH ==> Step(scan, c) == Put(Settle(scan), c)
  {
    assert Backslashes(0) == "";
    if c == BACKSLASH {
      var n := scan.slashes;
      assert scan.current + (Backslashes(n) + [c]) == scan.current + Backslashes(n) + [c];
    } else {
      var put := Put(Settle(scan), c);
      assert put.current + "" == put.current;
    }
  }

  // ----------------------------------------------------------------------------------------------
  // What each printed argument is read as, as long as no switch name has a quote
  // ----------------------------------------------------------------------------------------------

  ghost predicate HasQuotedName(arg: string, parse: bool) {
    parse && HasSwitchPrefix(arg) && QUOTE in SwitchName(arg)
  }

  /** The part that is printed outside quotes. */
  ghost function Bare(arg: string, parse: bool): string {
    if parse && HasSwitchPrefix(arg) then
      if SwitchValue(arg) == "" then SwitchName(arg)
      else if NeedsQuotes(SwitchValue(arg)) then SwitchName(arg) + [EQUALS]
      else SwitchName(arg) + [EQUALS] + SwitchValue(arg)
    else if NeedsQuotes(arg) then "" else arg
  }

  /** The part that is printed between quotes. */
  ghost function Covered(arg: string, parse: bool): string {
    if parse && HasSwitchPrefix(arg) then
      if NeedsQuotes(SwitchValue(arg)) then SwitchValue(arg) else ""
    else if NeedsQuotes(arg) then arg else ""
  }

  ghost function Cover(scan: Scan, text: string): Scan {
    if text == "" then scan else scan.(current := scan.current + text, started := true)
  }

  ghost function Read(done: seq<string>, arg: string, parse: bool): Scan {
    Cover(PutAll(Between(done), Bare(arg, parse)), Covered(arg, parse))
  }

  lemma {:induction false} PutAllQuoted(scan: Scan, s: string)
    requires scan.quoted && scan.started
    ensures PutAll(scan, s) == scan.(current := scan.current + s)
    decreases s
  {
    if s == "" {
      assert scan.current + s == scan.current;
    } else {
      PutAllQuoted(Put(scan, s[0]), s[1..]);
      assert scan.current + [s[0]] + s[1..] == scan.current + s;
    }
  }

  /** Outside quotes, and between arguments nothing is pending. */
  ghost predicate IsClean(scan: Scan) {
    !scan.quoted && (!scan.started ==> scan == Between(scan.done))
  }

  lemma {:induction false} PutAllKeeps(scan: Scan, s: string)
    requires scan.slashes == 0 && IsClean(scan)
    ensures PutAll(scan, s).slashes == 0 && IsClean(PutAll(scan, s))
    decreases s
  {
    if s != "" { PutAllKeeps(Put(scan, s[0]), s[1..]); }
  }

  lemma Settled(scan: Scan)
    requires scan.slashes == 0
    ensures Settle(scan) == scan
  {
    assert Backslashes(0) == "" && scan.current + "" == scan.current;
  }

  lemma QuoteReads(scan: Scan, text: string)
    requires scan.slashes == 0 && IsClean(scan)
    ensures Settle(Feed(scan, Quote(text))) == if NeedsQuotes(text) then Cover(scan, text) else PutAll(scan, text)
  {
    Settled(scan);
    if NeedsQuotes(text) {
      var inside := Toggle(scan);
      assert [QUOTE] + Escape(text) + [QUOTE] == [QUOTE] + (Escape(text) + [QUOTE]);
      FeedSum(scan, [QUOTE], Escape(text) + [QUOTE]);
      assert Feed(scan, [QUOTE]) == inside by { assert scan.current + "" == scan.current; }
      EscapeReads(inside, text);
      PutAllQuoted(inside, text);
      Settled(Cover(scan, text));
    } else {
      PlainReads(scan, text);
    }
  }

  lemma PrintReads(done: seq<string>, arg: string, parse: bool)
    requires !HasQuotedName(arg, parse)
    ensures Settle(Feed(Between(done), Print(arg, parse))) == Read(done, arg, parse)
  {
    var start := Between(done);
    Settled(start);
    if parse && HasSwitchPrefix(arg) {
      var name, value := SwitchName(arg), SwitchValue(arg);
      if value == "" {
        PlainReads(start, name);
      } else {
        var prefix := name + [EQUALS];
        PlainReads(start, prefix);
        PutAllKeeps(start, prefix);
        FeedSum(start, prefix, Quote(value));
        PutAllSum(start, prefix, value);
        QuoteReads(PutAll(start, prefix), value);
      }
    } else {
      QuoteReads(start, arg);
    }
  }

  // ----------------------------------------------------------------------------------------------
  // All arguments
  // ----------------------------------------------------------------------------------------------

  /** The arguments that one printed argument is split into. */
  ghost function Pieces(arg: string, parse: bool): seq<string> {
    Finish(Read([], arg, parse))
  }

  ghost function AllPieces(args: seq<string>, parse: bool): seq<string>
    decreases args
  {
    if args == [] then []
    else
      var p := parse && args[0] != SWITCH_TERMINATOR;
      Pieces(args[0], p) + AllPieces(args[1..], p)
  }

  ghost predicate SomeQuotedName(args: seq<string>, parse: bool)
    decreases args
  {
    args != [] &&
    var p := parse && args[0] != SWITCH_TERMINATOR;
    HasQuotedName(args[0], p) || SomeQuotedName(args[1..], p)
  }

  ghost function Above(done: seq<string>, scan: Scan): Scan {
    scan.(done := done + scan.done)
  }

  lemma {:induction false} PutAllAbove(done: seq<string>, scan: Scan, s: string)
    ensures PutAll(Above(done, scan), s) == Above(done, PutAll(scan, s))
    decreases s
  {
    if s != "" {
      assert done + (scan.done + [scan.current]) == done + scan.done + [scan.current];
      PutAllAbove(done, Put(scan, s[0]), s[1..]);
    }
  }

  lemma ReadAbove(done: seq<string>, arg: string, parse: bool)
    ensures Finish(Read(done, arg, parse)) == done + Pieces(arg, parse)
    ensures IsClean(Read(done, arg, parse))
  {
    PutAllAbove(done, Between([]), Bare(arg, parse));
    assert done + [] == done;
    PutAllKeeps(Between(done), Bare(arg, parse));
    var read := Read([], arg, parse);
    assert Read(done, arg, parse) == Above(done, read);
    assert done + (read.done + [Settle(read).current]) == done + read.done + [Settle(read).current];
  }

  lemma FinishSettled(scan: Scan)
    ensures Finish(Settle(scan)) == Finish(scan)
    ensures IsClean(Settle(scan)) ==> IsClean(scan)
  {
    Settled(Settle(scan));
  }

  lemma FeedNext(scan: Scan, arg: string, more: string, parse: bool)
    requires IsClean(scan) && !HasQuotedName(arg, parse)
    ensures var read := Feed(Between(Finish(scan)), Print(arg, parse));
            && Feed(scan, [SPACE] + Print(arg, parse) + more) == Feed(read, more)
            && IsClean(read) && Finish(read) == Finish(scan) + Pieces(arg, parse)
  {
    var done := Finish(scan);
    var read := Feed(Between(done), Print(arg, parse));
    SpaceEnds(scan);
    FeedSum(scan, [SPACE], Print(arg, parse));
    FeedSum(scan, [SPACE] + Print(arg, parse), more);
    PrintReads(done, arg, parse);
    ReadAbove(done, arg, parse);
    FinishSettled(read);
  }

  lemma SpaceEnds(scan: Scan)
    requires IsClean(scan)
    ensures Feed(scan, [SPACE]) == Between(Finish(scan))
  {
  }

  lemma {:induction false} ArgumentsRead(scan: Scan, args: seq<string>, parse: bool)
    requires IsClean(scan) && !SomeQuotedName(args, parse)
    ensures Finish(Feed(scan, Arguments(args, parse))) == Finish(scan) + AllPieces(args, parse)
    decreases args
  {
    if args == [] {
      assert Finish(scan) + [] == Finish(scan);
    } else {
      var p := parse && args[0] != SWITCH_TERMINATOR;
      FeedNext(scan, args[0], Arguments(args[1..], p), p);
      var read := Feed(Between(Finish(scan)), Print(args[0], p));
      ArgumentsRead(read, args[1..], p);
      Regroup(Finish(scan), Pieces(args[0], p), AllPieces(args[1..], p));
    }
  }

  // ----------------------------------------------------------------------------------------------
  // Counting characters: a piece that is not the argument is shorter, or there are more of them
  // ----------------------------------------------------------------------------------------------

  ghost function Total(pieces: seq<string>): nat
    decreases pieces
  {
    if pieces == [] then 0 else |pieces[0]| + Total(pieces[1..])
  }

  lemma {:induction false} TotalSum(a: seq<string>, b: seq<string>)
    ensures Total(a + b) == Total(a) + Total(b)
    decreases a
  {
    if a == [] {
      assert a + b == b;
    } else {
      assert (a + b)[1..] == a[1..] + b;
      TotalSum(a[1..], b);
    }
  }

  ghost predicate HasBlank(s: string) {
    SPACE in s || TAB in s
  }

  /** Blanks outside quotes are lost, all else is kept. */
  lemma {:induction false} PutAllSize(scan: Scan, s: string)
    requires scan.slashes == 0 && !scan.quoted
    ensures Total(PutAll(scan, s).done) + |PutAll(scan, s).current| <=
              Total(scan.done) + |scan.current| + |s| - (if HasBlank(s) then 1 else 0)
    ensures !HasBlank(s) ==>
              PutAll(scan, s) == scan.(current := scan.current + s, started := scan.started || s != "")
    decreases s
  {
    if s == "" {
      assert scan.current + s == scan.current;
    } else {
      var next := Put(scan, s[0]);
      PutAllSize(next, s[1..]);
      TotalSum(scan.done, [scan.current]);
      assert scan.current + [s[0]] + s[1..] == scan.current + s;
    }
  }

  lemma SwitchParts(arg: string)
    ensures EQUALS in arg ==> FindEquals(arg) < |arg| && arg == SwitchName(arg) + [EQUALS] + SwitchValue(arg)
    ensures EQUALS !in arg ==> SwitchName(arg) == arg && SwitchValue(arg) == ""
  {
    var n := FindEquals(arg);
    CutAt(arg, n);
  }

  lemma CutAt<T>(s: seq<T>, n: nat)
    requires n <= |s|
    ensures if n < |s| then s == s[..n] + [s[n]] + s[n + 1..] else s[..n] == s
  {
  }

  lemma BareOfSwitch(arg: string)
    requires HasSwitchPrefix(arg)
    ensures var bare, covered := Bare(arg, true), Covered(arg, true);
            if SwitchValue(arg) == "" then bare == SwitchName(arg) && covered == ""
            else bare + covered == SwitchName(arg) + [EQUALS] + SwitchValue(arg)
  {
    var text := SwitchName(arg) + [EQUALS] + SwitchValue(arg);
    assert text + "" == text;
  }

  lemma Rebuilt(arg: string, parse: bool)
    ensures |Bare(arg, parse)| + |Covered(arg, parse)| <= |arg|
    ensures |Bare(arg, parse)| + |Covered(arg, parse)| == |arg| ==> Bare(arg, parse) + Covered(arg, parse) == arg
  {
    SwitchParts(arg);
    if parse && HasSwitchPrefix(arg) {
      BareOfSwitch(arg);
      assert SwitchName(arg) + "" == SwitchName(arg);
    } else {
      assert "" + arg == arg == arg + "";
    }
  }

  /** Survives, said of what is printed. */
  lemma SurvivesIfKept(arg: string, parse: bool)
    requires !HasQuotedName(arg, parse) && arg != ""
    ensures Survives(arg, parse) <==>
              !HasBlank(Bare(arg, parse)) && |Bare(arg, parse)| + |Covered(arg, parse)| == |arg|
  {
    SwitchParts(arg);
    if parse && HasSwitchPrefix(arg) {
      var name, value := SwitchName(arg), SwitchValue(arg);
      BlankInJoin(name, [EQUALS]);
      BlankInJoin(name + [EQUALS], value);
    }
  }

  lemma BlankInJoin(a: string, b: string)
    ensures HasBlank(a + b) <==> HasBlank(a) || HasBlank(b)
  {
  }

  lemma PiecesSize(arg: string, parse: bool)
    ensures Total(Pieces(arg, parse)) <= |arg|
    ensures !HasQuotedName(arg, parse) && Total(Pieces(arg, parse)) == |arg| ==> arg == "" || Survives(arg, parse)
    ensures Survives(arg, parse) ==> Pieces(arg, parse) == [arg]
    ensures arg == "" ==> Pieces(arg, parse) == []
  {
    var bare, covered := Bare(arg, parse), Covered(arg, parse);
    var start := Between([]);
    Rebuilt(arg, parse);
    if arg != "" && !HasQuotedName(arg, parse) { SurvivesIfKept(arg, parse); }
    PutAllSize(start, bare);
    PutAllKeeps(start, bare);
    var read := Read([], arg, parse);
    Settled(read);
    TotalSum(read.done, [read.current]);
    if Survives(arg, parse) {
      assert bare != "" || covered != "";
      assert "" + bare + covered == bare + covered && "" + bare == bare && bare + "" == bare;
      assert [] + [read.current] == [read.current];
    }
  }

  lemma {:induction false} AllPiecesSize(args: seq<string>, parse: bool)
    requires !SomeQuotedName(args, parse)
    ensures Total(AllPieces(args, parse)) <= Total(args)
    ensures Total(AllPieces(args, parse)) == Total(args) ==>
              |AllPieces(args, parse)| <= |args| &&
              (|AllPieces(args, parse)| == |args| ==> AllSurvive(args, parse))
    decreases args
  {
    if args != [] {
      var p := parse && args[0] != SWITCH_TERMINATOR;
      PiecesSize(args[0], p);
      AllPiecesSize(args[1..], p);
      TotalSum(Pieces(args[0], p), AllPieces(args[1..], p));
    }
  }

  lemma {:induction false} SurvivorsAreRead(args: seq<string>, parse: bool)
    requires AllSurvive(args, parse)
    ensures AllPieces(args, parse) == args && !SomeQuotedName(args, parse)
    decreases args
  {
    if args != [] {
      var p := parse && args[0] != SWITCH_TERMINATOR;
      PiecesSize(args[0], p);
      SurvivorsAreRead(args[1..], p);
      assert [args[0]] + args[1..] == args;
    }
  }

  // ----------------------------------------------------------------------------------------------
  // Counting characters and pieces: a quote in a switch name is lost for good
  // ----------------------------------------------------------------------------------------------

  ghost function Weight(scan: Scan): nat {
    Total(scan.done) + |scan.done| + |scan.current| + scan.slashes
  }

  lemma PutWeight(scan: Scan, c: char)
    ensures Weight(Put(scan, c)) <= Weight(scan) + 1
  {
    TotalSum(scan.done, [scan.current]);
  }

  lemma StepWeight(scan: Scan, c: char)
    ensures Weight(Step(scan, c)) <= Weight(scan) + if c == QUOTE then 0 else 1
  {
    PutWeight(Settle(scan), c);
  }

  lemma {:induction false} FeedWeight(scan: Scan, s: string)
    ensures Weight(Feed(scan, s)) <= Weight(scan) + |s| - if QUOTE in s then 1 else 0
    decreases s
  {
    if s != "" {
      StepWeight(scan, s[0]);
      FeedWeight(Step(scan, s[0]), s[1..]);
    }
  }

  lemma {:induction false} PutAllWeight(scan: Scan, s: string)
    ensures Weight(PutAll(scan, s)) <= Weight(scan) + |s|
    decreases s
  {
    if s != "" {
      PutWeight(scan, s[0]);
      PutAllWeight(Put(scan, s[0]), s[1..]);
    }
  }

  lemma QuoteWeight(scan: Scan, text: string)
    requires scan.slashes == 0
    ensures Weight(Feed(scan, Quote(text))) <= Weight(scan) + |text|
  {
    if NeedsQuotes(text) {
      var inside := Toggle(scan);
      Regroup([QUOTE], Escape(text), [QUOTE]);
      FeedSum(scan, [QUOTE], Escape(text) + [QUOTE]);
      assert Feed(scan, [QUOTE]) == inside by { assert scan.current + "" == scan.current; }
      EscapeReads(inside, text);
      PutAllWeight(inside, text);
    } else {
      FeedWeight(scan, text);
    }
  }

  lemma PrintWeight(scan: Scan, arg: string, parse: bool)
    requires scan.slashes == 0
    ensures Weight(Feed(scan, Print(arg, parse))) <= Weight(scan) + |arg| - if HasQuotedName(arg, parse) then 1 else 0
  {
    if parse && HasSwitchPrefix(arg) {
      var name, value := SwitchName(arg), SwitchValue(arg);
      FeedWeight(scan, name);
      if value != "" {
        var prefix := name + [EQUALS];
        FeedSum(scan, prefix, Quote(value));
        FeedSum(scan, name, [EQUALS]);
        StepWeight(Feed(scan, name), EQUALS);
        QuoteWeight(Feed(scan, prefix), value);
      }
    } else {
      QuoteWeight(scan, arg);
    }
  }

  lemma NextWeight(scan: Scan, arg: string, more: string, parse: bool)
    ensures var next := Feed(Feed(scan, [SPACE]), Print(arg, parse));
            && Feed(scan, [SPACE] + Print(arg, parse) + more) == Feed(next, more)
            && Weight(next) <= Weight(Feed(scan, [SPACE])) + |arg| - if HasQuotedName(arg, parse) then 1 else 0
  {
    FeedSum(scan, [SPACE], Print(arg, parse));
    FeedSum(scan, [SPACE] + Print(arg, parse), more);
    PrintWeight(Feed(scan, [SPACE]), arg, parse);
  }

  lemma {:induction false} ArgumentsWeight(scan: Scan, args: seq<string>, parse: bool)
    ensures Weight(Feed(scan, Arguments(args, parse))) <=
              Weight(scan) + Total(args) + |args| - if SomeQuotedName(args, parse) then 1 else 0
    decreases args
  {
    if args != [] {
      var p := parse && args[0] != SWITCH_TERMINATOR;
      NextWeight(scan, args[0], Arguments(args[1..], p), p);
      StepWeight(scan, SPACE);
      ArgumentsWeight(Feed(Feed(scan, [SPACE]), Print(args[0], p)), args[1..], p);
    }
  }

  lemma FinishWeight(scan: Scan)
    ensures Total(Finish(scan)) + |Finish(scan)| <= Weight(scan) + 1
  {
    TotalSum(scan.done, [Settle(scan).current]);
  }

  lemma QuotedNamesAreLost(args: seq<string>, parse: bool)
    requires SomeQuotedName(args, parse)
    ensures Split(Arguments(args, parse)) != args
  {
    var p := parse && args[0] != SWITCH_TERMINATOR;
    var start := Between([]);
    NextWeight(start, args[0], Arguments(args[1..], p), p);
    assert Feed(start, [SPACE]) == start by { Settled(start); }
    ArgumentsWeight(Feed(start, Print(args[0], p)), args[1..], p);
    FinishWeight(Feed(start, Arguments(args, parse)));
  }

  // ----------------------------------------------------------------------------------------------
  // Main results
  // ----------------------------------------------------------------------------------------------

  /**
    Splitting the text that GetCommandLineString prints after the program gives the arguments back
    exactly when each of them survives: an argument that is no switch must not be empty and, where it
    has no space, backslash or quote to be quoted for, must have no tab; a switch must have no blank
    and no quote in its name, no empty value after its "=", and a value that is read as one.
   */
  lemma SplitUndoesPrinting(args: seq<string>, parse: bool)
    ensures Split(Arguments(args, parse)) == args <==> AllSurvive(args, parse)
  {
    if SomeQuotedName(args, parse) {
      QuotedNamesAreLost(args, parse);
      if AllSurvive(args, parse) { SurvivorsAreRead(args, parse); }
    } else {
      ArgumentsRead(Between([]), args, parse);
      assert [] + AllPieces(args, parse) == AllPieces(args, parse);
      AllPiecesSize(args, parse);
      if AllSurvive(args, parse) { SurvivorsAreRead(args, parse); }
    }
  }

  ghost function JoinQuoted(args: seq<string>): string
    decreases args
  {
    if args == [] then "" else [SPACE] + Quote(args[0]) + JoinQuoted(args[1..])
  }

  /** QuoteForCommandLineToArgvW by itself: what its quoted forms, joined by spaces, are split into. */
  lemma SplitUndoesQuoting(args: seq<string>)
    ensures Split(JoinQuoted(args)) == args <==>
              forall k :: 0 <= k < |args| ==> args[k] != "" && ReadsAsOne(args[k])
  {
    JoinedArePrinted(args);
    SplitUndoesPrinting(args, false);
  }

  lemma {:induction false} JoinedArePrinted(args: seq<string>)
    ensures JoinQuoted(args) == Arguments(args, false)
    ensures AllSurvive(args, false) <==> forall k :: 0 <= k < |args| ==> args[k] != "" && ReadsAsOne(args[k])
    decreases args
  {
    if args != [] {
      JoinedArePrinted(args[1..]);
      assert forall k :: 0 < k < |args| ==> args[k] == args[1..][k - 1];
    }
  }

  lemma OneArgument(arg: string)
    requires arg != SWITCH_TERMINATOR
    ensures Split(Arguments([arg], true)) == [arg] <==> Survives(arg, true)
  {
    SplitUndoesPrinting([arg], true);
    assert [arg][1..] == [];
  }

  /** Inputs that are lost: an empty argument, a tab, and any switch with an empty value. */
  lemma EmptyArgumentIsLost()
    ensures Split(Arguments([""], true)) != [""]
  {
    OneArgument("");
  }

  lemma TabIsLost()
    ensures Split(Arguments(["a\tb"], true)) != ["a\tb"]
  {
    OneArgument("a\tb");
    assert "a\tb"[1] == TAB;
  }

  lemma EmptyValueIsLost(arg: string)
    requires HasSwitchPrefix(arg) && EQUALS in arg && SwitchValue(arg) == ""
    ensures Split(Arguments([arg], true)) != [arg]
  {
    OneArgument(arg);
  }
}
