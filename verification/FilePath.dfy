/**
  base/file_path.cc in its POSIX configuration: the separator is '/', there are no drive letters, and
  FindDriveLetter's npos plus k is k - 1.
 */
module FilePaths {
  const SEPARATOR: char := '/'
  const CURRENT_DIRECTORY: string := "."

  predicate IsSeparator(c: char) {
    c == SEPARATOR
  }

  predicate AreAllSeparators(s: string) {
    forall k :: 0 <= k < |s| ==> IsSeparator(s[k])
  }

  /** A file name: not empty, and without separators. */
  predicate IsName(s: string) {
    s != "" && forall k :: 0 <= k < |s| ==> !IsSeparator(s[k])
  }

  // ----------------------------------------------------------------------------------------------
  // The operations as functions
  // ----------------------------------------------------------------------------------------------

  /** `path` without its trailing separators, all of them. */
  function DropTrailing(path: string): (r: string)
    ensures r <= path
  {
    if path == "" || !IsSeparator(path[|path| - 1]) then path
    else DropTrailing(path[..|path| - 1])
  }

  /** What StripTrailingSeparatorsInternal leaves: of separators alone, "/" and "//" survive. */
  function Strip(path: string): (r: string)
    ensures r <= path && (path != "" ==> r != "")
  {
    var r := DropTrailing(path);
    if r != "" then r else if |path| <= 2 then path else path[..1]
  }

  predicate IsStripped(path: string) {
    Strip(path) == path
  }

  /** The last index of `c`, as std::string::rfind gives it, with -1 for npos. */
  function LastOf(s: string, c: char): (i: int)
    ensures -1 <= i < |s|
  {
    if s == "" then -1
    else if s[|s| - 1] == c then |s| - 1
    else LastOf(s[..|s| - 1], c)
  }

  function LastSeparator(s: string): (i: int)
    ensures -1 <= i < |s|
  {
    LastOf(s, SEPARATOR)
  }

  function DirNameOf(path: string): string {
    var s := Strip(path);
    var last := LastSeparator(s);
    var cut :=
      if last == -1 then ""
      else if last == 0 then s[..1]
      else if last == 1 && IsSeparator(s[0]) then s[..2]
      else s[..last];
    if Strip(cut) == "" then CURRENT_DIRECTORY else Strip(cut)
  }

  function BaseNameOf(path: string): string {
    var s := Strip(path);
    var last := LastSeparator(s);
    if last != -1 && last < |s| - 1 then s[last + 1..] else s
  }

  function AppendTo(path: string, component: string): string {
    if path == CURRENT_DIRECTORY then component
    else
      var s := Strip(path);
      if component != "" && s != "" && !IsSeparator(s[|s| - 1]) then s + [SEPARATOR] + component
      else s + component
  }

  function AppendAll(path: string, components: seq<string>): string
    decreases components
  {
    if components == [] then path else AppendAll(AppendTo(path, components[0]), components[1..])
  }

  /** GetComponents: climbs with DirName until that has no effect, collecting base names on the way. */
  function ComponentsOf(path: string): seq<string> {
    if path == "" then [] else Climb(path)
  }

  function Climb(path: string): seq<string>
    decreases Height(path)
  {
    var dir := DirNameOf(path);
    if path == dir then RootOf(path)
    else
      DirNameIsLower(path);
      Climb(dir) + (if AreAllSeparators(BaseNameOf(path)) then [] else [BaseNameOf(path)])
  }

  function RootOf(path: string): seq<string> {
    var base := BaseNameOf(path);
    if base != "" && base != CURRENT_DIRECTORY then [base] else []
  }

  // ----------------------------------------------------------------------------------------------
  // Stripping
  // ----------------------------------------------------------------------------------------------

  lemma {:induction false} DropTrailingSplits(path: string)
    ensures var r := DropTrailing(path);
            && path == r + path[|r|..] && AreAllSeparators(path[|r|..])
            && (r == "" || !IsSeparator(r[|r| - 1]))
    decreases path
  {
    if path != "" && IsSeparator(path[|path| - 1]) {
      var shorter := path[..|path| - 1];
      DropTrailingSplits(shorter);
      LastMoves(path, |DropTrailing(shorter)|);
    }
  }

  lemma LastMoves(path: string, n: nat)
    requires n < |path| && AreAllSeparators(path[..|path| - 1][n..]) && IsSeparator(path[|path| - 1])
    ensures path == path[..n] + path[n..] && AreAllSeparators(path[n..])
  {
    assert forall k :: n <= k < |path| - 1 ==> path[k] == path[..|path| - 1][n..][k - n];
  }

  lemma {:induction false} DropTrailingOfSeparators(s: string)
    requires AreAllSeparators(s)
    ensures DropTrailing(s) == ""
    decreases s
  {
    if s != "" { DropTrailingOfSeparators(s[..|s| - 1]); }
  }

  lemma DropTrailingKeeps(s: string)
    requires s == "" || !IsSeparator(s[|s| - 1])
    ensures DropTrailing(s) == s
  {
  }

  /** Trailing separators do not matter, once something else is there. */
  lemma {:induction false} DropTrailingIgnores(s: string, seps: string)
    requires AreAllSeparators(seps)
    ensures DropTrailing(s + seps) == DropTrailing(s)
    decreases seps
  {
    if seps == "" {
      assert s + seps == s;
    } else {
      assert (s + seps)[..|s + seps| - 1] == s + seps[..|seps| - 1];
      DropTrailingIgnores(s, seps[..|seps| - 1]);
    }
  }

  lemma StripIsIdempotent(path: string)
    ensures Strip(Strip(path)) == Strip(path)
  {
    var r := DropTrailing(path);
    DropTrailingSplits(path);
    DropTrailingKeeps(r);
    if r == "" && |path| > 2 {
      assert AreAllSeparators(path[..1]);
      DropTrailingOfSeparators(path[..1]);
    }
  }

  /** A stripped path is a root, or does not end in a separator. */
  lemma StrippedForms(path: string)
    ensures IsStripped(path) <==>
              path == "" || path == "/" || path == "//" || !IsSeparator(path[|path| - 1])
  {
    if path != "" && IsSeparator(path[|path| - 1]) {
      var r := DropTrailing(path);
      DropTrailingSplits(path);
      if r == "" {
        assert path[|r|..] == path;
        assert forall k :: 0 <= k < |path| ==> path[k] == SEPARATOR;
        if |path| == 1 { assert path == "/"; }
        if |path| == 2 { assert path == "//"; }
      } else {
        assert |r| < |path|;
      }
    } else if path != "" {
      DropTrailingKeeps(path);
    }
  }

  ghost function Height(path: string): nat {
    if path == CURRENT_DIRECTORY then 0 else |path| + 1
  }

  /** DirName leaves the path alone, shortens it, or yields ".": climbing comes to an end on every path. */
  lemma DirNameIsLower(path: string)
    ensures DirNameOf(path) == CURRENT_DIRECTORY || DirNameOf(path) <= path
    ensures DirNameOf(path) == path || Height(DirNameOf(path)) < Height(path)
  {
  }

  // ----------------------------------------------------------------------------------------------
  // Components, split directly
  // ----------------------------------------------------------------------------------------------

  function FirstSeparator(s: string): (n: nat)
    ensures n <= |s| && (n < |s| ==> IsSeparator(s[n]))
    ensures forall k :: 0 <= k < n ==> !IsSeparator(s[k])
  {
    if s == "" || IsSeparator(s[0]) then 0 else 1 + FirstSeparator(s[1..])
  }

  /** The names between the separators, read from the left. */
  function Segments(path: string): seq<string>
    decreases |path|
  {
    if path == "" then []
    else if IsSeparator(path[0]) then Segments(path[1..])
    else
      var n := FirstSeparator(path);
      [path[..n]] + Segments(path[n..])
  }

  function LeadingSeparators(path: string): (n: nat)
    ensures n <= |path| && AreAllSeparators(path[..n])
    ensures n < |path| ==> !IsSeparator(path[n])
  {
    if path == "" || !IsSeparator(path[0]) then 0 else 1 + LeadingSeparators(path[1..])
  }

  /** Two leading separators are an alternate root; so are three, since DirName trims them to two. */
  function RootMarker(leading: nat): seq<string> {
    if leading == 0 then [] else if leading == 2 || leading == 3 then ["//"] else ["/"]
  }

  function DropDot(names: seq<string>): seq<string> {
    if names != [] && names[0] == CURRENT_DIRECTORY then names[1..] else names
  }

  /** The root marker, then the names; a relative path loses one leading ".". */
  function DirectComponents(path: string): seq<string> {
    if LeadingSeparators(path) == 0 then DropDot(Segments(path))
    else RootMarker(LeadingSeparators(path)) + Segments(path)
  }

  lemma {:induction false} SegmentsOfSeparators(s: string)
    requires AreAllSeparators(s)
    ensures Segments(s) == []
    decreases |s|
  {
    if s != "" { SegmentsOfSeparators(s[1..]); }
  }

  lemma {:induction false} SegmentsIgnore(path: string, seps: string)
    requires AreAllSeparators(seps)
    ensures Segments(path + seps) == Segments(path)
    decreases |path|
  {
    if path == "" {
      assert path + seps == seps;
      SegmentsOfSeparators(seps);
    } else if IsSeparator(path[0]) {
      assert (path + seps)[1..] == path[1..] + seps;
      SegmentsIgnore(path[1..], seps);
    } else {
      var n := FirstSeparator(path);
      FirstSeparatorIs(path + seps, n);
      assert (path + seps)[n..] == path[n..] + seps && (path + seps)[..n] == path[..n];
      SegmentsIgnore(path[n..], seps);
    }
  }

  lemma {:induction false} FirstSeparatorIs(s: string, n: nat)
    requires n <= |s| && (n < |s| ==> IsSeparator(s[n]))
    requires forall k :: 0 <= k < n ==> !IsSeparator(s[k])
    ensures FirstSeparator(s) == n
    decreases s
  {
    if n > 0 { FirstSeparatorIs(s[1..], n - 1); }
  }

  lemma {:induction false} SegmentsSnoc(path: string, name: string)
    requires IsName(name) && (path == "" || IsSeparator(path[|path| - 1]))
    ensures Segments(path + name) == Segments(path) + [name]
    decreases |path|
  {
    if path == "" {
      assert path + name == name;
      FirstSeparatorIs(name, |name|);
      assert name[..|name|] == name && name[|name|..] == "";
    } else if IsSeparator(path[0]) {
      assert (path + name)[1..] == path[1..] + name;
      SegmentsSnoc(path[1..], name);
    } else {
      var n := FirstSeparator(path);
      FirstSeparatorIs(path + name, n);
      assert (path + name)[n..] == path[n..] + name && (path + name)[..n] == path[..n];
      SegmentsSnoc(path[n..], name);
    }
  }

  lemma {:induction false} SegmentsAreNames(path: string)
    ensures forall k :: 0 <= k < |Segments(path)| ==> IsName(Segments(path)[k])
    ensures AreAllSeparators(path) <==> Segments(path) == []
    decreases |path|
  {
    if path == "" {
    } else if IsSeparator(path[0]) {
      SegmentsAreNames(path[1..]);
      assert AreAllSeparators(path[1..]) ==> AreAllSeparators(path) by {
        assert forall k :: 0 < k < |path| ==> path[k] == path[1..][k - 1];
      }
    } else {
      SegmentsAreNames(path[FirstSeparator(path)..]);
    }
  }

  lemma {:induction false} LeadingIs(path: string, n: nat)
    requires n <= |path| && (n < |path| ==> !IsSeparator(path[n])) && AreAllSeparators(path[..n])
    ensures LeadingSeparators(path) == n
    decreases path
  {
    if n > 0 {
      assert path[..n][0] == path[0] && path[1..][..n - 1] == path[..n][1..];
      LeadingIs(path[1..], n - 1);
    }
  }

  // ----------------------------------------------------------------------------------------------
  // One step of the climb
  // ----------------------------------------------------------------------------------------------

  /** A stripped path is a root, a single name, or a directory part that ends in a separator and a name. */
  ghost predicate Decomposes(path: string, front: string, name: string) {
    path == front + name && IsName(name) && (front == "" || IsSeparator(front[|front| - 1]))
  }

  lemma FindLastSeparator(path: string) returns (last: int)
    ensures -1 <= last < |path|
    ensures (last >= 0 ==> path[last] == SEPARATOR) && forall k :: last < k < |path| ==> path[k] != SEPARATOR
  {
    last := LastOf(path, SEPARATOR);
    LastOfSplits(path, SEPARATOR);
  }

  lemma CutRejoins(path: string, n: nat)
    requires n <= |path|
    ensures path == path[..n] + path[n..]
  {
  }

  lemma CutDecomposes(path: string, n: nat)
    requires n < |path| && (n > 0 ==> IsSeparator(path[n - 1]))
    requires forall k :: n <= k < |path| ==> !IsSeparator(path[k])
    ensures Decomposes(path, path[..n], path[n..])
  {
    CutRejoins(path, n);
    assert forall k :: 0 <= k < |path[n..]| ==> path[n..][k] == path[n + k];
    assert n > 0 ==> path[..n][n - 1] == path[n - 1];
  }

  lemma Decompose(path: string) returns (front: string, name: string)
    requires IsStripped(path) && path != "" && path != "/" && path != "//"
    ensures Decomposes(path, front, name)
  {
    StrippedForms(path);
    var last := FindLastSeparator(path);
    var n: nat := last + 1;
    CutDecomposes(path, n);
    front, name := path[..n], path[n..];
  }

  lemma {:induction false} LastOfIs(s: string, c: char, i: int)
    requires -1 <= i < |s| && (i >= 0 ==> s[i] == c)
    requires forall k :: i < k < |s| ==> s[k] != c
    ensures LastOf(s, c) == i
    decreases s
  {
    if i < |s| - 1 { LastOfIs(s[..|s| - 1], c, i); }
  }

  lemma {:induction false} LastOfSplits(s: string, c: char)
    ensures var i := LastOf(s, c); (i >= 0 ==> s[i] == c) && forall k :: i < k < |s| ==> s[k] != c
    decreases s
  {
    if s != "" && s[|s| - 1] != c { LastOfSplits(s[..|s| - 1], c); }
  }

  /** The directory a path with this front part is in. */
  ghost function DirOfFront(front: string): string {
    if front == "" then CURRENT_DIRECTORY
    else if AreAllSeparators(front) then RootMarker(|front|)[0]
    else DropTrailing(front)
  }

  lemma BaseOf(path: string, front: string, name: string)
    requires Decomposes(path, front, name)
    ensures IsStripped(path) && BaseNameOf(path) == name && LastSeparator(path) == |front| - 1
  {
    StrippedForms(path);
    LastOfIs(path, SEPARATOR, |front| - 1);
    assert path[|front|..] == name;
  }

  lemma DirOf(path: string, front: string, name: string)
    requires Decomposes(path, front, name)
    ensures DirNameOf(path) == DirOfFront(front)
  {
    BaseOf(path, front, name);
    var last := |front| - 1;
    assert last >= 0 ==> path[..last] == front[..last];
    assert last >= 0 ==> path[..last + 1] == front;
    if last >= 0 && AreAllSeparators(front) {
      StripOfSeparators(front);
      if last >= 1 { StripOfSeparators(front[..last]); }
    } else if last >= 0 {
      assert front[..last] + front[last..] == front;
      DropTrailingIgnores(front[..last], front[last..]);
      DropTrailingEmpty(front);
      assert last == 1 ==> !IsSeparator(front[0]);
    }
  }

  lemma DropTrailingEmpty(s: string)
    ensures DropTrailing(s) == "" <==> AreAllSeparators(s)
  {
    DropTrailingSplits(s);
    assert s[0..] == s;
    if AreAllSeparators(s) { DropTrailingOfSeparators(s); }
  }

  lemma NamesOf(path: string, front: string, name: string)
    requires Decomposes(path, front, name)
    ensures IsStripped(path)
    ensures BaseNameOf(path) == name
    ensures DirNameOf(path) == DirOfFront(front)
  {
    BaseOf(path, front, name);
    DirOf(path, front, name);
  }

  lemma StripOfSeparators(s: string)
    requires AreAllSeparators(s) && s != ""
    ensures Strip(s) == if |s| == 2 then "//" else "/"
  {
    DropTrailingOfSeparators(s);
  }

  /** The components below a directory are those of the directory and one name more. */
  lemma DirectStep(path: string, front: string, name: string)
    requires Decomposes(path, front, name) && path != CURRENT_DIRECTORY
    ensures IsStripped(DirOfFront(front))
    ensures DirectComponents(path) == DirectComponents(DirOfFront(front)) + [name]
  {
    SegmentsSnoc(front, name);
    var dir := DirOfFront(front);
    if front == "" {
      FirstSeparatorIs(CURRENT_DIRECTORY, 1);
      assert CURRENT_DIRECTORY[1..] == "" && CURRENT_DIRECTORY[..1] == CURRENT_DIRECTORY;
      StrippedForms(dir);
      LeadingIs(path, 0);
    } else if AreAllSeparators(front) {
      SegmentsOfSeparators(front);
      LeadingIs(path, |front|);
      LeadingIs(dir, |dir|);
      SegmentsOfSeparators(dir);
      StrippedForms(dir);
    } else {
      DirectStepBelowNames(path, front, name);
    }
  }

  /** Leading separators do not depend on what follows the first other character. */
  lemma LeadingOfLonger(s: string, more: string)
    requires LeadingSeparators(s) < |s|
    ensures LeadingSeparators(s + more) == LeadingSeparators(s)
  {
    var n := LeadingSeparators(s);
    assert (s + more)[..n] == s[..n] && (s + more)[n] == s[n];
    LeadingIs(s + more, n);
  }

  lemma DirHasNames(front: string)
    requires !AreAllSeparators(front)
    ensures var dir := DropTrailing(front);
            && dir != "" && IsStripped(dir)
            && LeadingSeparators(dir) < |dir| && LeadingSeparators(dir) == LeadingSeparators(front)
            && Segments(dir) == Segments(front) != []
  {
    var dir := DropTrailing(front);
    DropTrailingEmpty(front);
    DropTrailingSplits(front);
    StrippedForms(dir);
    assert front == dir + front[|dir|..];
    SegmentsIgnore(dir, front[|dir|..]);
    SegmentsAreNames(front);
    assert !IsSeparator(dir[|dir| - 1]);
    LastIsNotLeading(dir);
    LeadingOfLonger(dir, front[|dir|..]);
  }

  lemma {:induction false} LastIsNotLeading(s: string)
    requires s != "" && !IsSeparator(s[|s| - 1])
    ensures LeadingSeparators(s) < |s|
    decreases s
  {
    if IsSeparator(s[0]) { LastIsNotLeading(s[1..]); }
  }

  lemma DirectStepBelowNames(path: string, front: string, name: string)
    requires Decomposes(path, front, name) && !AreAllSeparators(front)
    ensures IsStripped(DropTrailing(front))
    ensures DirectComponents(path) == DirectComponents(DropTrailing(front)) + [name]
  {
    var dir := DropTrailing(front);
    DirHasNames(front);
    LeadingOfLonger(front, name);
    SegmentsSnoc(front, name);
    var n := LeadingSeparators(dir);
    assert RootMarker(n) + (Segments(dir) + [name]) == RootMarker(n) + Segments(dir) + [name];
  }

  // ----------------------------------------------------------------------------------------------
  // Main results
  // ----------------------------------------------------------------------------------------------

  lemma RootsAreFixed(path: string)
    requires path == "/" || path == "//"
    ensures IsStripped(path) && DirNameOf(path) == path && BaseNameOf(path) == path
    ensures DirectComponents(path) == [path] && Climb(path) == [path]
  {
    StrippedForms(path);
    LastOfIs(path, SEPARATOR, |path| - 1);
    LeadingIs(path, |path|);
    SegmentsOfSeparators(path);
    assert path[..|path|] == path;
  }

  /** On a stripped path climbing finds what the direct split finds. */
  lemma {:induction false} ClimbIsDirect(path: string)
    requires IsStripped(path) && path != ""
    ensures Climb(path) == DirectComponents(path)
    decreases Height(path)
  {
    if path == "/" || path == "//" {
      RootsAreFixed(path);
    } else {
      var front, name := Decompose(path);
      NamesOf(path, front, name);
      if path == CURRENT_DIRECTORY {
        DotIsEmpty();
      } else {
        DirNameIsLower(path);
        DirectStep(path, front, name);
        DirIsNotSelf(path, front, name);
        ClimbIsDirect(DirOfFront(front));
      }
    }
  }

  lemma DotIsEmpty()
    ensures IsStripped(CURRENT_DIRECTORY) && DirNameOf(CURRENT_DIRECTORY) == CURRENT_DIRECTORY
    ensures BaseNameOf(CURRENT_DIRECTORY) == CURRENT_DIRECTORY
    ensures Climb(CURRENT_DIRECTORY) == [] == DirectComponents(CURRENT_DIRECTORY)
  {
    var dot := CURRENT_DIRECTORY;
    assert Decomposes(dot, "", dot);
    NamesOf(dot, "", dot);
    FirstSeparatorIs(dot, 1);
    assert dot[1..] == "" && dot[..1] == dot;
    LeadingIs(dot, 0);
  }

  lemma DirIsNotSelf(path: string, front: string, name: string)
    requires Decomposes(path, front, name) && path != CURRENT_DIRECTORY
    ensures DirOfFront(front) != path && DirOfFront(front) != ""
  {
    if front != "" && !AreAllSeparators(front) { DirHasNames(front); }
    assert !IsSeparator(path[|path| - 1]);
  }

  /**
    GetComponents on every path: the direct split of the stripped path. The one exception is "." with
    trailing separators, which yields ["."] although "." itself yields nothing.
   */
  lemma ComponentsAreDirect(path: string)
    ensures ComponentsOf(path) ==
              if path == "" then []
              else if Strip(path) == CURRENT_DIRECTORY && path != CURRENT_DIRECTORY then [CURRENT_DIRECTORY]
              else DirectComponents(Strip(path))
  {
    if path != "" {
      var s := Strip(path);
      StripIsIdempotent(path);
      ClimbIsDirect(s);
      if path != s {
        FirstStep(path);
        if s == "/" || s == "//" {
          RootsAreFixed(s);
        } else if s == CURRENT_DIRECTORY {
          DotIsEmpty();
        } else {
          FirstStepAboveName(path);
        }
      }
    }
  }

  /** Trailing separators change nothing but what the directory is compared with. */
  lemma FirstStep(path: string)
    requires path != Strip(path)
    ensures DirNameOf(path) == DirNameOf(Strip(path)) && BaseNameOf(path) == BaseNameOf(Strip(path))
    ensures DirNameOf(path) != path
    ensures Climb(path) == Climb(DirNameOf(path)) +
                           (if AreAllSeparators(BaseNameOf(path)) then [] else [BaseNameOf(path)])
  {
    StripIsIdempotent(path);
    DirNameIsStripped(path);
  }

  lemma FirstStepAboveName(path: string)
    requires path != Strip(path)
    requires Strip(path) != "/" && Strip(path) != "//" && Strip(path) != CURRENT_DIRECTORY
    ensures Climb(path) == Climb(Strip(path))
  {
    var s := Strip(path);
    StripIsIdempotent(path);
    FirstStep(path);
    var front, name := Decompose(s);
    NamesOf(s, front, name);
    DirIsNotSelf(s, front, name);
  }

  lemma DirNameIsStripped(path: string)
    ensures IsStripped(DirNameOf(path)) && DirNameOf(path) != ""
  {
    DotIsEmpty();
    var s := Strip(path);
    var last := LastSeparator(s);
    StripIsIdempotent(if last == -1 then "" else if last == 0 then s[..1]
                      else if last == 1 && IsSeparator(s[0]) then s[..2] else s[..last]);
  }

  /** How many leading separators make which root, when a name follows. */
  lemma LeadingSeparatorsMakeTheRoot(path: string)
    requires LeadingSeparators(path) < |path|
    ensures var n, c := LeadingSeparators(path), ComponentsOf(path);
            n > 0 ==> c != [] && c[0] == if n == 2 || n == 3 then "//" else "/"
  {
    ComponentsAreDirect(path);
    DirHasNames(path);
    assert Strip(path) == DropTrailing(path);
    if Strip(path) == CURRENT_DIRECTORY { LeadingIs(CURRENT_DIRECTORY, 0); }
  }
}
