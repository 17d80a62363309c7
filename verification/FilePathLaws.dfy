/**
  Laws that span several operations of base/file_path.cc: what Append, DirName, BaseName and
  GetComponents undo of each other, when AppendRelativePath rebuilds a path, and when RemoveExtension
  and Extension do.
 */
module FilePathLaws {
  import opened FilePaths

  // ----------------------------------------------------------------------------------------------
  // Append, DirName, BaseName
  // ----------------------------------------------------------------------------------------------

  /** What Append puts before the component. */
  ghost function FrontOf(dir: string): string {
    if dir == CURRENT_DIRECTORY || dir == "" then ""
    else if IsSeparator(Strip(dir)[|Strip(dir)| - 1]) then Strip(dir)
    else Strip(dir) + [SEPARATOR]
  }

  /** The directory that Append appends to; the empty path stands for the current one. */
  ghost function Directory(dir: string): string {
    if dir == "" then CURRENT_DIRECTORY else Strip(dir)
  }

  lemma AppendDecomposes(dir: string, name: string)
    requires IsName(name)
    ensures Decomposes(AppendTo(dir, name), FrontOf(dir), name)
  {
  }

  lemma FrontIsInDirectory(dir: string)
    ensures DirOfFront(FrontOf(dir)) == Directory(dir)
  {
    var s := Strip(dir);
    DotIsEmpty();
    if dir != "" && dir != CURRENT_DIRECTORY {
      StripIsIdempotent(dir);
      StrippedForms(s);
      if s != "/" && s != "//" {
        DropTrailingIgnores(s, [SEPARATOR]);
        DropTrailingKeeps(s);
        assert FrontOf(dir)[|s| - 1] == s[|s| - 1];
      }
    }
  }

  /** A name appended to any path whatever is its base name there, and the path its directory. */
  lemma AppendThenSplit(dir: string, name: string)
    requires IsName(name)
    ensures BaseNameOf(AppendTo(dir, name)) == name
    ensures DirNameOf(AppendTo(dir, name)) == if dir == "" then CURRENT_DIRECTORY else Strip(dir)
  {
    AppendDecomposes(dir, name);
    NamesOf(AppendTo(dir, name), FrontOf(dir), name);
    FrontIsInDirectory(dir);
  }

  // ----------------------------------------------------------------------------------------------
  // Append and GetComponents
  // ----------------------------------------------------------------------------------------------

  /** "." with trailing separators, which Append and GetComponents do not take for the current directory. */
  predicate IsStrayDot(path: string) {
    Strip(path) == CURRENT_DIRECTORY && path != CURRENT_DIRECTORY
  }

  predicate AreNames(names: seq<string>) {
    forall k :: 0 <= k < |names| ==> IsName(names[k])
  }

  lemma ComponentsOfDirectory(dir: string)
    ensures DirectComponents(Directory(dir)) == if IsStrayDot(dir) then [] else ComponentsOf(dir)
    ensures IsStrayDot(dir) ==> ComponentsOf(dir) == [CURRENT_DIRECTORY]
  {
    ComponentsAreDirect(dir);
    DotIsEmpty();
    assert dir == "" ==> Strip(dir) == "";
  }

  /** Append adds one component, or drops a "." that would be the first. */
  lemma ComponentsOfAppended(dir: string, name: string)
    requires IsName(name)
    ensures var p := AppendTo(dir, name);
            && IsStripped(p)
            && ComponentsOf(p) ==
                 if Directory(dir) == CURRENT_DIRECTORY && !IsStrayDot(dir) && name == CURRENT_DIRECTORY then []
                 else if IsStrayDot(dir) then [name]
                 else ComponentsOf(dir) + [name]
  {
    var p := AppendTo(dir, name);
    AppendDecomposes(dir, name);
    NamesOf(p, FrontOf(dir), name);
    FrontIsInDirectory(dir);
    ComponentsAreDirect(p);
    ComponentsOfDirectory(dir);
    DotIsEmpty();
    if p != CURRENT_DIRECTORY {
      DirectStep(p, FrontOf(dir), name);
    }
  }

  /** Only the current directory has no components. */
  lemma NoComponents(path: string)
    ensures ComponentsOf(path) == [] <==> path == "" || path == CURRENT_DIRECTORY
  {
    ComponentsAreDirect(path);
    DotIsEmpty();
    if path != "" && Strip(path) != CURRENT_DIRECTORY {
      var s := Strip(path);
      StripIsIdempotent(path);
      if s == "/" || s == "//" {
        RootsAreFixed(s);
      } else {
        var front, name := Decompose(s);
        DirectStep(s, front, name);
      }
    }
  }

  lemma {:induction false} AppendAddsAtMost(dir: string, names: seq<string>)
    requires AreNames(names)
    ensures |ComponentsOf(AppendAll(dir, names))| <= |ComponentsOf(dir)| + |names|
    decreases names
  {
    if names != [] {
      assert IsName(names[0]);
      ComponentsOfAppended(dir, names[0]);
      AppendAddsAtMost(AppendTo(dir, names[0]), names[1..]);
    }
  }

  /** Whether appending the name leaves the components as they are, with one more at the end. */
  predicate KeepsAll(dir: string, name: string) {
    !IsStrayDot(dir) && (ComponentsOf(dir) != [] || name != CURRENT_DIRECTORY)
  }

  lemma AppendStep(dir: string, name: string)
    requires IsName(name)
    ensures KeepsAll(dir, name) ==> ComponentsOf(AppendTo(dir, name)) == ComponentsOf(dir) + [name]
    ensures !KeepsAll(dir, name) ==> |ComponentsOf(AppendTo(dir, name))| <= |ComponentsOf(dir)|
    ensures !IsStrayDot(AppendTo(dir, name))
  {
    ComponentsOfAppended(dir, name);
    NoComponents(dir);
    ComponentsOfDirectory(dir);
  }

  lemma HeadAppended<T>(a: seq<T>, b: seq<T>)
    requires b != []
    ensures a + b == a + [b[0]] + b[1..]
  {
  }

  /** Exactly when appending names one after the other appends them to the components. */
  lemma {:induction false} ComponentsOfAppendAll(dir: string, names: seq<string>)
    requires AreNames(names)
    ensures ComponentsOf(AppendAll(dir, names)) == ComponentsOf(dir) + names <==>
              names == [] || KeepsAll(dir, names[0])
    decreases names
  {
    if names == [] {
      assert ComponentsOf(dir) + names == ComponentsOf(dir);
    } else {
      AppendStep(dir, names[0]);
      var next := AppendTo(dir, names[0]);
      if KeepsAll(dir, names[0]) {
        ComponentsOfAppendAll(next, names[1..]);
        HeadAppended(ComponentsOf(dir), names);
      } else {
        AppendAddsAtMost(next, names[1..]);
      }
    }
  }

  /** After the first component, all components are names; the first may be a root instead. */
  lemma ComponentsAreNames(path: string)
    ensures ComponentsOf(path) != [] ==> AreNames(ComponentsOf(path)[1..])
    ensures ComponentsOf(path) != [] && !IsName(ComponentsOf(path)[0]) ==> ComponentsOf(path)[0] in {"/", "//"}
  {
    ComponentsAreDirect(path);
    DirectAreNames(Strip(path));
  }

  ghost predicate RootThenNames(components: seq<string>) {
    components != [] ==>
      AreNames(components[1..]) && (IsName(components[0]) || components[0] in {"/", "//"})
  }

  lemma DirectAreNames(path: string)
    ensures RootThenNames(DirectComponents(path))
  {
    SegmentsAreNames(path);
    var names := Segments(path);
    assert AreNames(names);
    if LeadingSeparators(path) == 0 {
      NamesAreNames(names);
      if names != [] { NamesAreNames(names[1..]); }
    } else {
      var root := RootMarker(LeadingSeparators(path));
      assert (root + names)[1..] == names && (root + names)[0] == root[0];
    }
  }

  lemma NamesAreNames(names: seq<string>)
    requires AreNames(names)
    ensures RootThenNames(names)
  {
  }

  // ----------------------------------------------------------------------------------------------
  // AppendRelativePath
  // ----------------------------------------------------------------------------------------------

  /** IsParent: the parent has components, and the child the same ones first and more after them. */
  predicate IsParentOf(parent: string, child: string) {
    ComponentsOf(parent) != [] && ComponentsOf(parent) < ComponentsOf(child)
  }

  function RelativeComponents(parent: string, child: string): seq<string>
    requires IsParentOf(parent, child)
  {
    ComponentsOf(child)[|ComponentsOf(parent)|..]
  }

  /** AppendRelativePath's result value and the path it leaves in its out-parameter. */
  function AppendRelative(parent: string, child: string, path: string): (r: (bool, string)) {
    if IsParentOf(parent, child) then (true, AppendAll(path, RelativeComponents(parent, child)))
    else (false, path)
  }

  lemma RelativeComponentsAreNames(parent: string, child: string)
    requires IsParentOf(parent, child)
    ensures AreNames(RelativeComponents(parent, child))
  {
    ComponentsAreNames(child);
    SuffixAreNames(ComponentsOf(child), |ComponentsOf(parent)|);
  }

  lemma SuffixAreNames(components: seq<string>, n: nat)
    requires 0 < n <= |components| && AreNames(components[1..])
    ensures AreNames(components[n..])
  {
    assert forall k :: 0 <= k < |components| - n ==> components[n..][k] == components[1..][n - 1 + k];
  }

  /**
    The components of AppendRelativePath's output are those it had and then the child's beyond the
    parent's, exactly when the output path is no "./" and, if it had none, the first is not ".".
   */
  lemma RelativePathIsAppended(parent: string, child: string, path: string)
    requires IsParentOf(parent, child)
    ensures var rest := RelativeComponents(parent, child);
            && ComponentsOf(child) == ComponentsOf(parent) + rest && rest != []
            && (ComponentsOf(AppendRelative(parent, child, path).1) == ComponentsOf(path) + rest <==>
                  KeepsAll(path, rest[0]))
  {
    ChildExtendsParent(parent, child);
    RelativeComponentsAreNames(parent, child);
    ComponentsOfAppendAll(path, RelativeComponents(parent, child));
  }

  lemma ChildExtendsParent(parent: string, child: string)
    requires IsParentOf(parent, child)
    ensures RelativeComponents(parent, child) != []
    ensures ComponentsOf(child) == ComponentsOf(parent) + RelativeComponents(parent, child)
  {
    PrefixAndRest(ComponentsOf(parent), ComponentsOf(child));
  }

  lemma PrefixAndRest<T>(a: seq<T>, b: seq<T>)
    requires a < b
    ensures b[|a|..] != [] && b == a + b[|a|..]
  {
  }

  /** What is relative to a parent and appended to it makes the child again, except below "./". */
  lemma RelativePathRebuildsChild(parent: string, child: string)
    requires IsParentOf(parent, child)
    ensures ComponentsOf(AppendRelative(parent, child, parent).1) == ComponentsOf(child) <==> !IsStrayDot(parent)
  {
    RelativePathIsAppended(parent, child, parent);
  }

  /** The path after that many calls of DirName. */
  function Ancestor(path: string, steps: nat): string {
    Iterate(DirNameOf, path, steps)
  }

  function Iterate<T>(f: T -> T, x: T, n: nat): T
    decreases n
  {
    if n == 0 then x else Iterate(f, f(x), n - 1)
  }

  lemma DirLosesOne(path: string)
    ensures Starts(ComponentsOf(path), ComponentsOf(DirNameOf(path)))
    ensures |ComponentsOf(path)| > 1 ==>
              && Height(DirNameOf(path)) < Height(path)
              && ComponentsOf(path) == ComponentsOf(DirNameOf(path)) + [BaseNameOf(path)]
  {
    DirNameIsStripped(path);
    DirNameIsLower(path);
    DotIsEmpty();
    if path != "" && path != DirNameOf(path) && AreAllSeparators(BaseNameOf(path)) { SeparatorsAreOneComponent(path); }
  }

  lemma SeparatorsAreOneComponent(path: string)
    requires path != "" && AreAllSeparators(BaseNameOf(path))
    ensures |ComponentsOf(path)| == 1
  {
    var s := Strip(path);
    StripIsIdempotent(path);
    ComponentsAreDirect(path);
    if s == "/" || s == "//" {
      RootsAreFixed(s);
      ClimbIsDirect(s);
    } else {
      var front, name := Decompose(s);
      BaseOf(s, front, name);
      NameIsNoSeparator(name);
    }
  }

  lemma NameIsNoSeparator(name: string)
    requires IsName(name)
    ensures !AreAllSeparators(name)
  {
    assert !IsSeparator(name[0]);
  }

  ghost predicate Starts<T>(s: seq<T>, t: seq<T>) {
    |t| <= |s| && s[..|t|] == t
  }

  lemma PrefixOfPrefix<T>(s: seq<T>, t: seq<T>, u: seq<T>)
    requires Starts(s, t) && Starts(t, u)
    ensures Starts(s, u)
  {
    assert s[..|u|] == s[..|t|][..|u|];
  }

  lemma {:induction false} IterateIsPrefix(up: string -> string, parts: string -> seq<string>, path: string, steps: nat)
    requires forall p {:trigger up(p)} :: Starts(parts(p), parts(up(p)))
    ensures Starts(parts(path), parts(Iterate(up, path, steps)))
    decreases steps
  {
    if steps > 0 {
      IterateIsPrefix(up, parts, up(path), steps - 1);
      PrefixOfPrefix(parts(path), parts(up(path)), parts(Iterate(up, path, steps)));
    }
  }

  lemma AncestorIsPrefix(path: string, steps: nat)
    ensures Starts(ComponentsOf(path), ComponentsOf(Ancestor(path, steps)))
  {
    var up, parts := DirNameOf, ComponentsOf;
    forall p ensures Starts(parts(p), parts(up(p))) { DirLosesOne(p); }
    IterateIsPrefix(up, parts, path, steps);
  }

  lemma {:induction false} PrefixIsAncestor(path: string, n: nat) returns (steps: nat)
    requires 0 < n <= |ComponentsOf(path)|
    ensures ComponentsOf(Ancestor(path, steps)) == ComponentsOf(path)[..n]
    decreases Height(path)
  {
    if n == |ComponentsOf(path)| {
      steps := 0;
    } else {
      DirLosesOne(path);
      steps := PrefixIsAncestor(DirNameOf(path), n);
      steps := steps + 1;
    }
  }

  /** Parents, which are found by comparing components, are what climbing with DirName from the child meets. */
  lemma ParentsAreMetClimbing(parent: string, child: string)
    ensures IsParentOf(parent, child) <==>
              && ComponentsOf(parent) != [] && |ComponentsOf(parent)| < |ComponentsOf(child)|
              && exists steps :: ComponentsOf(Ancestor(child, steps)) == ComponentsOf(parent)
  {
    if IsParentOf(parent, child) {
      var steps := PrefixIsAncestor(child, |ComponentsOf(parent)|);
      assert ComponentsOf(Ancestor(child, steps)) == ComponentsOf(parent);
    }
    if steps: nat :| ComponentsOf(Ancestor(child, steps)) == ComponentsOf(parent) { AncestorIsPrefix(child, steps); }
  }

  lemma AppendedIsChild(dir: string, name: string)
    requires IsName(name)
    ensures IsParentOf(dir, AppendTo(dir, name)) <==> dir != "" && dir != CURRENT_DIRECTORY && !IsStrayDot(dir)
  {
    ComponentsOfAppended(dir, name);
    ComponentsOfDirectory(dir);
    NoComponents(dir);
  }

  // ----------------------------------------------------------------------------------------------
  // Extensions
  // ----------------------------------------------------------------------------------------------

  const PARENT_DIRECTORY: string := ".."
  const EXTENSION_SEPARATOR: char := '.'
  const COMMON_DOUBLE_EXTENSIONS: seq<string> := ["gz", "z", "bz2"]

  function ToLowerASCII(c: char): char {
    if 'A' <= c <= 'Z' then (c as int - 'A' as int + 'a' as int) as char else c
  }

  function StringToLowerASCII(s: string): string {
    if s == "" then "" else [ToLowerASCII(s[0])] + StringToLowerASCII(s[1..])
  }

  /** The table is { "gz", "z", "bz2" }, and the comparison ignores case. */
  predicate IsCommonDoubleExtension(extension: string) {
    StringToLowerASCII(extension) in COMMON_DOUBLE_EXTENSIONS
  }

  /** The position of the dot that starts the extension, or -1. */
  function ExtensionSeparatorPosition(path: string): (dot: int)
    ensures -1 <= dot < |path|
  {
    var last := LastOf(path, EXTENSION_SEPARATOR);
    if path == CURRENT_DIRECTORY || path == PARENT_DIRECTORY then -1
    else if last <= 0 || !IsCommonDoubleExtension(path[last + 1..]) then last
    else DoubleExtension(path[..last])
  }

  /** Where ".tar.gz" starts, given what stands before the last dot. */
  function DoubleExtension(stem: string): (dot: int)
    ensures -1 <= dot <= |stem|
  {
    var penultimate := LastOf(stem, EXTENSION_SEPARATOR);
    if penultimate != -1 && penultimate > LastSeparator(stem) && 1 < |stem| - penultimate <= 5
    then penultimate else |stem|
  }

  function ExtensionOf(path: string): string {
    var base := BaseNameOf(path);
    var dot := ExtensionSeparatorPosition(base);
    if dot == -1 then "" else base[dot..]
  }

  function RemoveExtensionOf(path: string): string {
    var dot := ExtensionSeparatorPosition(path);
    if ExtensionOf(path) == "" || dot == -1 then path else path[..dot]
  }

  /** A directory in front of a stem only moves the dot, for its own dots lie before the separator. */
  lemma DoubleExtensionIsInName(front: string, stem: string)
    requires front != "" && IsSeparator(front[|front| - 1])
    requires forall k :: 0 <= k < |stem| ==> !IsSeparator(stem[k])
    ensures DoubleExtension(front + stem) == |front| + DoubleExtension(stem)
  {
    LastOfIs(front + stem, SEPARATOR, |front| - 1);
    LastOfIs(stem, SEPARATOR, -1);
    LastOfSplits(front + stem, EXTENSION_SEPARATOR);
    LastOfSplits(stem, EXTENSION_SEPARATOR);
    var p := LastOf(stem, EXTENSION_SEPARATOR);
    if p >= 0 { LastOfIs(front + stem, EXTENSION_SEPARATOR, |front| + p); }
    else { StemHasNoDot(front, stem); }
  }

  lemma StemHasNoDot(front: string, stem: string)
    requires front != "" && IsSeparator(front[|front| - 1])
    requires forall k :: 0 <= k < |stem| ==> stem[k] != EXTENSION_SEPARATOR
    ensures LastOf(front + stem, EXTENSION_SEPARATOR) < |front| - 1
  {
    LastOfSplits(front + stem, EXTENSION_SEPARATOR);
    var p := LastOf(front + stem, EXTENSION_SEPARATOR);
    assert forall k :: |front| <= k < |front + stem| ==> (front + stem)[k] == stem[k - |front|];
  }

  /** The extension of a name does not depend on the directory the name is in. */
  lemma ExtensionIsInName(path: string, front: string, name: string)
    requires Decomposes(path, front, name) && ExtensionSeparatorPosition(name) != -1
    ensures ExtensionSeparatorPosition(path) == |front| + ExtensionSeparatorPosition(name)
  {
    if front == "" {
      assert path == name;
    } else {
      var last := LastOf(name, EXTENSION_SEPARATOR);
      LastOfSplits(name, EXTENSION_SEPARATOR);
      LastOfIs(path, EXTENSION_SEPARATOR, |front| + last);
      assert path[|front| + last + 1..] == name[last + 1..];
      assert path[..|front| + last] == front + name[..last];
      DoubleExtensionIsInName(front, name[..last]);
      assert path[|front| - 1] == SEPARATOR;
      assert last == 0 ==> DoubleExtension(name[..last]) == last;
    }
  }

  /** No extension: no dot in the name, or one of the two names that are all dots. */
  predicate HasNoExtension(path: string) {
    EXTENSION_SEPARATOR !in BaseNameOf(path) || BaseNameOf(path) in {CURRENT_DIRECTORY, PARENT_DIRECTORY}
  }

  lemma {:induction false} LastOfMember(s: string, c: char)
    ensures LastOf(s, c) == -1 <==> c !in s
    decreases s
  {
    if s != "" {
      assert s == s[..|s| - 1] + [s[|s| - 1]];
      LastOfMember(s[..|s| - 1], c);
    }
  }

  lemma ExtensionIsEmpty(path: string)
    ensures ExtensionOf(path) == "" <==> HasNoExtension(path)
  {
    LastOfMember(BaseNameOf(path), EXTENSION_SEPARATOR);
  }

  /**
    Exactly when RemoveExtension and Extension together give the path back: when it has no trailing
    separators to lose, or its name has no extension.
   */
  lemma ExtensionsRebuild(path: string)
    ensures RemoveExtensionOf(path) + ExtensionOf(path) == path <==> IsStripped(path) || HasNoExtension(path)
  {
    ExtensionIsEmpty(path);
    if ExtensionOf(path) != "" {
      if IsStripped(path) { StrippedRebuilds(path); } else { UnstrippedLoses(path); }
    }
  }

  /** An input for which file_path.h promises more than the code does. */
  lemma TrailingSeparatorIsLost()
    ensures RemoveExtensionOf("foo.txt/") + ExtensionOf("foo.txt/") != "foo.txt/"
  {
    var path, name := "foo.txt/", "foo.txt";
    assert path == name + "/" && name[3] == EXTENSION_SEPARATOR;
    DropTrailingIgnores(name, "/");
    DropTrailingKeeps(name);
    assert Decomposes(name, "", name);
    BaseOf(name, "", name);
    ExtensionsRebuild(path);
  }

  lemma UnstrippedEnds(path: string)
    requires !IsStripped(path)
    ensures path != "" && IsSeparator(path[|path| - 1])
  {
    StrippedForms(path);
  }

  lemma UnstrippedLoses(path: string)
    requires !IsStripped(path)
    ensures ExtensionOf(path) != "" ==> RemoveExtensionOf(path) + ExtensionOf(path) != path
  {
    UnstrippedEnds(path);
    NameEnds(path);
    EndsDiffer(RemoveExtensionOf(path), ExtensionOf(path), path);
  }

  lemma EndsDiffer(a: string, b: string, s: string)
    requires s != "" && IsSeparator(s[|s| - 1]) && (b != "" ==> !IsSeparator(b[|b| - 1]))
    ensures b != "" ==> a + b != s
  {
    if b != "" { assert (a + b)[|a + b| - 1] == b[|b| - 1]; }
  }

  lemma StrippedRebuilds(path: string)
    requires IsStripped(path) && ExtensionOf(path) != ""
    ensures RemoveExtensionOf(path) + ExtensionOf(path) == path
  {
    assert BaseNameOf("") == "";
    ExtensionHasName(path);
    var front, name := Decompose(path);
    BaseOf(path, front, name);
    NameRebuilds(path, front, name);
  }

  lemma ExtensionHasName(path: string)
    ensures Strip(path) == "/" || Strip(path) == "//" ==> ExtensionOf(path) == ""
  {
    StripIsIdempotent(path);
    RootHasNoExtension("/");
    RootHasNoExtension("//");
  }

  lemma RootHasNoExtension(root: string)
    requires root == "/" || root == "//"
    ensures BaseNameOf(root) == root && ExtensionSeparatorPosition(root) == -1
  {
    RootsAreFixed(root);
    LastOfIs(root, EXTENSION_SEPARATOR, -1);
  }

  lemma NameRebuilds(path: string, front: string, name: string)
    requires Decomposes(path, front, name) && BaseNameOf(path) == name
    requires ExtensionSeparatorPosition(name) != -1
    ensures RemoveExtensionOf(path) + ExtensionOf(path) == path
  {
    ExtensionIsInName(path, front, name);
    RebuildsAt(path, front, name);
  }

  lemma RebuildsAt(path: string, front: string, name: string)
    requires path == front + name && BaseNameOf(path) == name
    requires ExtensionSeparatorPosition(name) != -1
    requires ExtensionSeparatorPosition(path) == |front| + ExtensionSeparatorPosition(name)
    ensures RemoveExtensionOf(path) + ExtensionOf(path) == path
  {
    CutAndGlue(path, front, name, ExtensionSeparatorPosition(name), RemoveExtensionOf(path), ExtensionOf(path));
  }

  lemma CutAndGlue(path: string, front: string, name: string, dot: nat, cut: string, extension: string)
    requires path == front + name && dot <= |name|
    requires cut == path[..|front| + dot] && extension == name[dot..]
    ensures cut + extension == path
  {
  }

  lemma NameEnds(path: string)
    ensures ExtensionOf(path) != "" ==> !IsSeparator(ExtensionOf(path)[|ExtensionOf(path)| - 1])
  {
    if ExtensionOf(path) != "" {
      var s := Strip(path);
      assert IsStripped(s) && BaseNameOf(path) == BaseNameOf(s) by { StripIsIdempotent(path); }
      ExtensionHasName(path);
      BaseIsName(s);
      SuffixIsName(BaseNameOf(path), ExtensionSeparatorPosition(BaseNameOf(path)));
    }
  }

  /** The letters are the same, but that those of `s` may be capitals. */
  predicate IsIgnoringCase(s: string, lower: string) {
    |s| == |lower| &&
    forall k :: 0 <= k < |s| ==> s[k] == lower[k] || ('A' <= s[k] <= 'Z' && s[k] as int + 32 == lower[k] as int)
  }

  /** A compression suffix, behind which one more extension counts. */
  predicate IsCompression(extension: string) {
    IsIgnoringCase(extension, "gz") || IsIgnoringCase(extension, "z") || IsIgnoringCase(extension, "bz2")
  }

  lemma {:induction false} LowerIs(s: string, lower: string)
    requires forall k :: 0 <= k < |lower| ==> !('A' <= lower[k] <= 'Z')
    ensures StringToLowerASCII(s) == lower <==> IsIgnoringCase(s, lower)
    decreases s
  {
    if s != "" {
      var rest := StringToLowerASCII(s[1..]);
      assert StringToLowerASCII(s) == [ToLowerASCII(s[0])] + rest;
      if lower != "" {
        LowerIs(s[1..], lower[1..]);
        assert lower == [lower[0]] + lower[1..];
        assert ([ToLowerASCII(s[0])] + rest)[0] == ToLowerASCII(s[0]) && ([ToLowerASCII(s[0])] + rest)[1..] == rest;
        assert forall k :: 0 <= k < |s| - 1 ==> s[1..][k] == s[k + 1];
        assert forall k :: 1 <= k < |s| ==> s[k] == s[1..][k - 1];
      }
    }
  }

  lemma CommonIsCompression(extension: string)
    ensures IsCommonDoubleExtension(extension) <==> IsCompression(extension)
  {
    LowerIs(extension, "gz");
    LowerIs(extension, "z");
    LowerIs(extension, "bz2");
  }

  lemma BaseWithDotIsName(path: string)
    requires EXTENSION_SEPARATOR in BaseNameOf(path)
    ensures IsName(BaseNameOf(path))
  {
    var s := Strip(path);
    StripIsIdempotent(path);
    if s == "/" || s == "//" {
      RootsAreFixed(s);
    } else {
      BaseIsName(s);
    }
  }

  /** The last dot, and what the name has before and after it. */
  lemma LastDotIs(name: string, stem: string, last: string)
    requires name == stem + "." + last && EXTENSION_SEPARATOR !in last
    ensures LastOf(name, EXTENSION_SEPARATOR) == |stem|
    ensures name[..|stem|] == stem && name[|stem| + 1..] == last && name[|stem|..] == "." + last
  {
    assert name[|stem|] == EXTENSION_SEPARATOR;
    assert forall k :: |stem| < k < |name| ==> name[k] == last[k - |stem| - 1];
    LastOfIs(name, EXTENSION_SEPARATOR, |stem|);
  }

  lemma NamesHaveNoSeparator(stem: string)
    requires forall k :: 0 <= k < |stem| ==> !IsSeparator(stem[k])
    ensures LastSeparator(stem) == -1
  {
    LastOfIs(stem, SEPARATOR, -1);
  }

  /**
    What the extension of a name with two dots or more is: both of the last parts if the very last one is a
    compression suffix and the one before it has one to four characters, and else the last one.
   */
  lemma ExtensionWithTwoDots(path: string, front: string, mid: string, last: string)
    requires BaseNameOf(path) == front + "." + mid + "." + last && BaseNameOf(path) != PARENT_DIRECTORY
    requires EXTENSION_SEPARATOR !in mid && EXTENSION_SEPARATOR !in last
    ensures ExtensionOf(path) ==
              if IsCompression(last) && 1 <= |mid| <= 4 then "." + mid + "." + last else "." + last
  {
    var name, stem := BaseNameOf(path), front + "." + mid;
    assert name[|stem|] == EXTENSION_SEPARATOR;
    BaseWithDotIsName(path);
    PositionWithTwoDots(name, front, mid, last);
    LastDotIs(name, stem, last);
    RestOfTwoDots(name, front, mid, last);
  }

  lemma RestOfTwoDots(name: string, front: string, mid: string, last: string)
    requires name == front + "." + mid + "." + last
    ensures name[|front|..] == "." + mid + "." + last
  {
  }

  lemma PositionWithTwoDots(name: string, front: string, mid: string, last: string)
    requires name == front + "." + mid + "." + last && IsName(name) && name != PARENT_DIRECTORY
    requires EXTENSION_SEPARATOR !in mid && EXTENSION_SEPARATOR !in last
    ensures ExtensionSeparatorPosition(name) ==
              if IsCompression(last) && 1 <= |mid| <= 4 then |front| else |front| + 1 + |mid|
  {
    var stem := front + "." + mid;
    LastDotIs(name, stem, last);
    CommonIsCompression(last);
    StemOfTwoDots(name, front, mid, stem);
  }

  lemma StemOfTwoDots(name: string, front: string, mid: string, stem: string)
    requires stem == front + "." + mid && stem <= name && IsName(name) && EXTENSION_SEPARATOR !in mid
    ensures DoubleExtension(stem) == if 1 <= |mid| <= 4 then |front| else |stem|
  {
    LastDotIs(stem, front, mid);
    assert forall k :: 0 <= k < |stem| ==> stem[k] == name[k];
    NamesHaveNoSeparator(stem);
  }

  /** And of a name with one dot: that dot and the rest. */
  lemma ExtensionWithOneDot(path: string, front: string, last: string)
    requires BaseNameOf(path) == front + "." + last && BaseNameOf(path) != CURRENT_DIRECTORY
    requires EXTENSION_SEPARATOR !in front && EXTENSION_SEPARATOR !in last
    ensures ExtensionOf(path) == "." + last
  {
    var name := BaseNameOf(path);
    LastDotIs(name, front, last);
    LastOfMember(front, EXTENSION_SEPARATOR);
    assert name != PARENT_DIRECTORY by { assert |name| == 2 && name[|front|] == '.' ==> front != "." && last != "."; }
  }

  lemma SuffixIsName(s: string, i: nat)
    requires IsName(s) && i < |s|
    ensures IsName(s[i..])
  {
  }

  lemma BaseIsName(path: string)
    requires IsStripped(path) && path != "" && path != "/" && path != "//"
    ensures IsName(BaseNameOf(path))
  {
    var front, name := Decompose(path);
    BaseOf(path, front, name);
  }

  /** Nothing appended leaves the stripped path, with no separator at its end. */
  lemma AppendNothing(path: string)
    ensures AppendTo(path, "") == if path == CURRENT_DIRECTORY then "" else Strip(path)
  {
    assert Strip(path) + "" == Strip(path);
  }
}
