/** What base/command_line.cc quotes and what it takes for a switch, in plain characters. */
module CommandLinePrinting {
  import opened CommandLines

  /** On Windows a switch is what starts with a dash or a slash; only "--" counts as a prefix of two. */
  lemma SwitchesStartWith(s: string)
    ensures HasSwitchPrefix(s) <==> s != "" && (s[0] == '-' || s[0] == '/')
  {
    assert s != "" ==> s == [s[0]] + s[1..];
  }

  /** What is quoted: a text with a space, a backslash or a quote in it, and no other. */
  lemma QuotedExactlyWhen(arg: string)
    ensures Quote(arg) != arg <==> ' ' in arg || '\\' in arg || '"' in arg
  {
    if NeedsQuotes(arg) { EscapeIsLonger(arg); }
  }

  lemma {:induction false} EscapeIsLonger(s: string)
    ensures |Escape(s)| >= |s|
    decreases |s|
  {
    if s != "" {
      if s[0] == BACKSLASH { EscapeIsLonger(s[LeadingBackslashes(s)..]); } else { EscapeIsLonger(s[1..]); }
    }
  }

  /** The arguments as texts, each after a space. */
  function Texts(args: seq<string>): string {
    if args == [] then "" else " " + Quote(args[0]) + Texts(args[1..])
  }

  lemma {:induction false} NoSwitchesAreTexts(args: seq<string>)
    ensures Arguments(args, false) == Texts(args)
    decreases args
  {
    if args != [] { NoSwitchesAreTexts(args[1..]); }
  }

  /** Behind "--" nothing is printed as a switch. */
  lemma DoubleDashEndsSwitches(args: seq<string>, parse: bool)
    ensures Arguments(["--"] + args, parse) == " --" + Texts(args)
  {
    NoSwitchesAreTexts(args);
    assert (["--"] + args)[1..] == args;
    assert Quote("--") == "--" && [SPACE] + "--" == " --";
  }
}
