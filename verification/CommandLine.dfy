/**
  base/command_line.cc on Windows: the printer of command lines, and, as the specification it has to
  meet, Microsoft's rules for parsing C++ command-line arguments.
 */
module CommandLines {
  const BACKSLASH: char := '\\'
  const QUOTE: char := '"'
  const SPACE: char := ' '
  const TAB: char := '\t'
  const EQUALS: char := '='

  const SWITCH_TERMINATOR: string := "--"
  const SWITCH_PREFIXES: seq<string> := ["--", "-", "/"]

  function Backslashes(n: nat): (s: string)
    ensures |s| == n
  {
    if n == 0 then "" else Backslashes(n - 1) + [BACKSLASH]
  }

  // ----------------------------------------------------------------------------------------------
  // The splitter: arguments are delimited by blanks outside double quotes; 2n backslashes and a quote
  // are n backslashes and a delimiter, 2n + 1 backslashes and a quote are n backslashes and a literal
  // quote; other backslashes are literal.
  // ----------------------------------------------------------------------------------------------

  /** `slashes` backslashes have been read whose meaning depends on what follows. */
  datatype Scan = Scan(done: seq<string>, current: string, started: bool, quoted: bool, slashes: nat)

  predicate IsBlank(c: char) {
    c == SPACE || c == TAB
  }

  function Settle(scan: Scan): Scan {
    scan.(current := scan.current + Backslashes(scan.slashes), slashes := 0)
  }

  /** Any character as a literal one, but a blank outside quotes still ends the argument. */
  function Put(scan: Scan, c: char): Scan {
    if IsBlank(c) && !scan.quoted then
      if scan.started then Between(scan.done + [scan.current]) else scan
    else scan.(current := scan.current + [c], started := true)
  }

  function Between(done: seq<string>): Scan {
    Scan(done, "", false, false, 0)
  }

  function Step(scan: Scan, c: char): Scan {
    if c == BACKSLASH then scan.(slashes := scan.slashes + 1, started := true)
    else if c == QUOTE then
      var kept := scan.(current := scan.current + Backslashes(scan.slashes / 2), slashes := 0, started := true);
      if scan.slashes % 2 == 1 then kept.(current := kept.current + [QUOTE]) else kept.(quoted := !kept.quoted)
    else Put(Settle(scan), c)
  }

  function Feed(scan: Scan, s: string): Scan
    decreases s
  {
    if s == "" then scan else Feed(Step(scan, s[0]), s[1..])
  }

  function Finish(scan: Scan): seq<string> {
    if scan.started then scan.done + [Settle(scan).current] else scan.done
  }

  function Split(commandLine: string): seq<string> {
    Finish(Feed(Between([]), commandLine))
  }

  // ----------------------------------------------------------------------------------------------
  // The printer
  // ----------------------------------------------------------------------------------------------

  predicate NeedsQuotes(arg: string) {
    SPACE in arg || BACKSLASH in arg || QUOTE in arg
  }

  function LeadingBackslashes(s: string): (n: nat)
    ensures n <= |s| && (n < |s| ==> s[n] != BACKSLASH)
    ensures s[..n] == Backslashes(n)
  {
    if s == "" || s[0] != BACKSLASH then 0
    else
      var n := LeadingBackslashes(s[1..]);
      BackslashFirst(n);
      assert s[..n + 1] == [BACKSLASH] + s[1..][..n];
      n + 1
  }

  lemma {:induction false} BackslashFirst(n: nat)
    ensures [BACKSLASH] + Backslashes(n) == Backslashes(n + 1)
  {
    if n > 0 {
      BackslashFirst(n - 1);
      assert [BACKSLASH] + (Backslashes(n - 1) + [BACKSLASH]) == [BACKSLASH] + Backslashes(n - 1) + [BACKSLASH];
    }
  }

  /** A run of backslashes is doubled before a quote and at the end; a quote gets one of its own. */
  function Escape(s: string): string
    decreases |s|
  {
    if s == "" then ""
    else if s[0] == BACKSLASH then
      var n := LeadingBackslashes(s);
      Backslashes(if n == |s| || s[n] == QUOTE then 2 * n else n) + Escape(s[n..])
    else if s[0] == QUOTE then [BACKSLASH, QUOTE] + Escape(s[1..])
    else [s[0]] + Escape(s[1..])
  }

  function Quote(arg: string): string {
    if NeedsQuotes(arg) then [QUOTE] + Escape(arg) + [QUOTE] else arg
  }

  function FindEquals(s: string): (n: nat)
    ensures n <= |s| && (n < |s| ==> s[n] == EQUALS) && EQUALS !in s[..n]
  {
    if s == "" || s[0] == EQUALS then 0 else 1 + FindEquals(s[1..])
  }

  /** "--" is listed before "-", which it begins with, but IsSwitch only asks whether some prefix fits. */
  predicate HasSwitchPrefix(s: string) {
    SWITCH_PREFIXES[0] <= s || SWITCH_PREFIXES[1] <= s || SWITCH_PREFIXES[2] <= s
  }

  function SwitchName(s: string): string {
    s[..FindEquals(s)]
  }

  function SwitchValue(s: string): string {
    if FindEquals(s) < |s| then s[FindEquals(s) + 1..] else ""
  }

  /** One argument as GetCommandLineString prints it: of a switch, only the value is ever quoted. */
  function Print(arg: string, parseSwitches: bool): string {
    if parseSwitches && HasSwitchPrefix(arg) then
      if SwitchValue(arg) == "" then SwitchName(arg)
      else SwitchName(arg) + [EQUALS] + Quote(SwitchValue(arg))
    else Quote(arg)
  }

  /** The arguments, each after a space; from a "--" on, none is a switch. */
  function Arguments(args: seq<string>, parseSwitches: bool): string
    decreases args
  {
    if args == [] then ""
    else
      var parse := parseSwitches && args[0] != SWITCH_TERMINATOR;
      [SPACE] + Print(args[0], parse) + Arguments(args[1..], parse)
  }
}
