/** The loops of base/command_line.cc that print a command line, proved against the printer's functions. */
module CommandLineClass {
  import opened Basics
  import opened CommandLines
  import opened CommandLineRoundTrip

  method QuoteForCommandLineToArgvW(arg: string) returns (out: string)
    ensures out == Quote(arg)
  {
    if !NeedsQuotes(arg) {
      return arg;
    }
    out := [QUOTE];
    var i := 0;
    while i < |arg|
      invariant 0 <= i <= |arg|
      invariant out + Escape(arg[i..]) == [QUOTE] + Escape(arg)
    {
      var added: string, next := "", i + 1;
      if arg[i] == BACKSLASH {
        added, next := EscapedRun(arg, i);
      } else {
        EscapeOther(arg, i);
        added := if arg[i] == QUOTE then [BACKSLASH, QUOTE] else [arg[i]];
      }
      Regroup(out, added, Escape(arg[next..]));
      out := out + added;
      i := next;
    }
    assert out + "" == out;
    out := out + [QUOTE];
  }

  /** One run of backslashes: the loop that finds its extent, and the one that puts it out. */
  method EscapedRun(arg: string, start: nat) returns (added: string, end: nat)
    requires start < |arg| && arg[start] == BACKSLASH
    ensures start < end <= |arg|
    ensures Escape(arg[start..]) == added + Escape(arg[end..])
  {
    end := RunEnd(arg, start);
    EscapeFrom(arg, start, end);
    var count := end - start;
    if end == |arg| || arg[end] == QUOTE {
      count := count * 2;
    }
    added := RepeatBackslash(count);
  }

  method RunEnd(arg: string, start: nat) returns (end: nat)
    requires start < |arg| && arg[start] == BACKSLASH
    ensures start < end <= |arg| && LeadingBackslashes(arg[start..]) == end - start
  {
    end := start + 1;
    while end < |arg| && arg[end] == BACKSLASH
      invariant start < end <= |arg|
      invariant forall k :: start <= k < end ==> arg[k] == BACKSLASH
    {
      end := end + 1;
    }
    RunLength(arg[start..], end - start);
  }

  method RepeatBackslash(count: nat) returns (added: string)
    ensures added == Backslashes(count)
  {
    added := "";
    var j := 0;
    while j < count
      invariant 0 <= j <= count && added == Backslashes(j)
    {
      added := added + [BACKSLASH];
      j := j + 1;
    }
  }

  lemma {:induction false} RunLength(s: string, n: nat)
    requires n <= |s| && (n < |s| ==> s[n] != BACKSLASH)
    requires forall k :: 0 <= k < n ==> s[k] == BACKSLASH
    ensures LeadingBackslashes(s) == n
    decreases n
  {
    if n > 0 { RunLength(s[1..], n - 1); }
  }

  lemma EscapeFrom(s: string, start: nat, end: nat)
    requires start < end <= |s| && s[start] == BACKSLASH && LeadingBackslashes(s[start..]) == end - start
    ensures Escape(s[start..]) ==
              Backslashes(if end == |s| || s[end] == QUOTE then 2 * (end - start) else end - start) + Escape(s[end..])
  {
    assert s[start..][end - start..] == s[end..];
  }

  /** Which entries of the table fit. */
  lemma PrefixesOf(s: string)
    ensures SWITCH_PREFIXES[0] <= s <==> |s| >= 2 && s[0] == '-' && s[1] == '-'
    ensures SWITCH_PREFIXES[1] <= s <==> s != "" && s[0] == '-'
    ensures SWITCH_PREFIXES[2] <= s <==> s != "" && s[0] == '/'
  {
    assert |s| >= 2 ==> s == [s[0], s[1]] + s[2..];
    assert s != "" ==> s == [s[0]] + s[1..];
  }

  /** The length of the first prefix in the table that fits, or 0. */
  method GetSwitchPrefixLength(s: string) returns (length: nat)
    ensures length > 0 <==> HasSwitchPrefix(s)
    ensures length > 0 ==>
              exists i :: 0 <= i < |SWITCH_PREFIXES| && SWITCH_PREFIXES[i] <= s && length == |SWITCH_PREFIXES[i]| &&
                          forall j :: 0 <= j < i ==> !(SWITCH_PREFIXES[j] <= s)
    ensures length == if |s| >= 2 && s[0] == '-' && s[1] == '-' then 2
                      else if s != "" && (s[0] == '-' || s[0] == '/') then 1 else 0
  {
    PrefixesOf(s);
    var i := 0;
    while i < |SWITCH_PREFIXES|
      invariant 0 <= i <= |SWITCH_PREFIXES|
      invariant forall j :: 0 <= j < i ==> !(SWITCH_PREFIXES[j] <= s)
    {
      if SWITCH_PREFIXES[i] <= s {
        return |SWITCH_PREFIXES[i]|;
      }
      i := i + 1;
    }
    return 0;
  }

  method IsSwitch(s: string) returns (r: bool, name: string, value: string)
    ensures r == HasSwitchPrefix(s)
    ensures name == (if r then SwitchName(s) else "") && value == if r then SwitchValue(s) else ""
  {
    var length := GetSwitchPrefixLength(s);
    if length == 0 {
      return false, "", "";
    }
    var equals := FindEquals(s);
    name, value := s[..equals], "";
    if equals != |s| {
      value := s[equals + 1..];
    }
    r := true;
  }

  class CommandLine {
    var argv: seq<string>

    /** argv[0] is the program; it is never missing. */
    ghost predicate Valid()
      reads this
    {
      |argv| > 0
    }

    /** A command line that only carries switches and arguments. */
    constructor NoProgram()
      ensures Valid() && argv == [""]
    {
      argv := [""];
    }

    method AppendArgNative(value: string)
      requires Valid()
      modifies this
      ensures Valid() && argv == old(argv) + [value]
    {
      argv := argv + [value];
    }

    /** One round of the loop of GetCommandLineString. */
    static method PrintArgument(arg: string, parseSwitches: bool) returns (text: string)
      ensures text == Print(arg, parseSwitches)
    {
      var isSwitch, name, value := IsSwitch(arg);
      if parseSwitches && isSwitch {
        text := name;
        if value != "" {
          value := QuoteForCommandLineToArgvW(value);
          text := text + [EQUALS] + value;
        }
      } else {
        text := QuoteForCommandLineToArgvW(arg);
      }
    }

    /** What follows the program is split into the arguments again exactly if they all survive. */
    method GetCommandLineString() returns (line: string)
      requires Valid()
      ensures line == Quote(argv[0]) + Arguments(argv[1..], true)
      ensures Split(line[|Quote(argv[0])|..]) == argv[1..] <==> AllSurvive(argv[1..], true)
    {
      line := QuoteForCommandLineToArgvW(argv[0]);
      var parseSwitches := true;
      var i := 1;
      ghost var whole := Quote(argv[0]) + Arguments(argv[1..], true);
      while i < |argv|
        invariant 1 <= i <= |argv|
        invariant line + Arguments(argv[i..], parseSwitches) == whole
      {
        var arg := argv[i];
        ghost var before, parsed := line, parseSwitches;
        parseSwitches := parseSwitches && arg != SWITCH_TERMINATOR;
        var text := PrintArgument(arg, parseSwitches);
        line := line + [SPACE] + text;
        PrintedNext(before, argv[i], argv[i + 1..], parsed, line);
        assert [argv[i]] + argv[i + 1..] == argv[i..];
        i := i + 1;
      }
      Finished(line, Quote(argv[0]), Arguments(argv[1..], true));
      SplitUndoesPrinting(argv[1..], true);
    }
  }

  lemma Finished(line: string, program: string, arguments: string)
    requires line + "" == program + arguments
    ensures line == program + arguments && line[|program|..] == arguments
  {
    assert line + "" == line;
  }

  lemma PrintedNext(line: string, arg: string, args: seq<string>, parseSwitches: bool, next: string)
    requires next == line + [SPACE] + Print(arg, parseSwitches && arg != SWITCH_TERMINATOR)
    ensures next + Arguments(args, parseSwitches && arg != SWITCH_TERMINATOR) ==
              line + Arguments([arg] + args, parseSwitches)
  {
    var parse := parseSwitches && arg != SWITCH_TERMINATOR;
    assert ([arg] + args)[1..] == args;
    Regroup(line, [SPACE], Print(arg, parse));
    Regroup(line, [SPACE] + Print(arg, parse), Arguments(args, parse));
  }
}
