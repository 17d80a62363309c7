/**
  base/file_path.cc's FilePath: the methods edit a copy of path_ step by step, and loop over the
  component vectors. Each is proved against the function of FilePaths that it computes.
 */
module FilePathClass {
  import opened FilePaths
  import opened FilePathLaws

  class FilePath {
    var path: string

    constructor (path: string)
      ensures this.path == path
    {
      this.path := path;
    }

    method StripTrailingSeparatorsInternal()
      modifies this
      ensures path == Strip(old(path))
    {
      ghost var all := path;
      var start := 1;
      var lastStripped := -1;
      var pos := |path|;
      while pos > start && IsSeparator(path[pos - 1])
        invariant 0 <= pos <= |path| <= |all| && path == all[..|path|]
        invariant AreAllSeparators(all[pos..])
        invariant all == "//" ==> path == all
        invariant pos == 0 ==> all == ""
        invariant |path| == pos || (pos == 1 && all == path == "//")
        invariant |path| == pos ==> lastStripped == if pos == |all| then -1 else pos + 1
      {
        assert all[pos - 1..] == [all[pos - 1]] + all[pos..];
        if pos != start + 1 || lastStripped == start + 2 || !IsSeparator(path[start - 1]) {
          path := path[..pos - 1];
          lastStripped := pos;
        } else {
          assert all == "//";
        }
        pos := pos - 1;
      }
      StrippedForms(all);
      StrippedTo(all, pos);
    }

    method DirName() returns (dir: FilePath)
      ensures fresh(dir) && dir.path == DirNameOf(path)
    {
      dir := new FilePath(path);
      dir.StripTrailingSeparatorsInternal();
      var lastSeparator := LastSeparator(dir.path);
      if lastSeparator == -1 {
        dir.path := "";
      } else if lastSeparator == 0 {
        dir.path := dir.path[..1];
      } else if lastSeparator == 1 && IsSeparator(dir.path[0]) {
        dir.path := dir.path[..2];
      } else {
        dir.path := dir.path[..lastSeparator];
      }
      dir.StripTrailingSeparatorsInternal();
      if |dir.path| == 0 {
        dir.path := CURRENT_DIRECTORY;
      }
    }

    method BaseName() returns (base: FilePath)
      ensures fresh(base) && base.path == BaseNameOf(path)
    {
      base := new FilePath(path);
      base.StripTrailingSeparatorsInternal();
      var lastSeparator := LastSeparator(base.path);
      if lastSeparator != -1 && lastSeparator < |base.path| - 1 {
        base.path := base.path[lastSeparator + 1..];
      }
    }

    method Append(component: string) returns (result: FilePath)
      ensures fresh(result) && result.path == AppendTo(path, component)
    {
      if path == CURRENT_DIRECTORY {
        result := new FilePath(component);
        return;
      }
      result := new FilePath(path);
      result.StripTrailingSeparatorsInternal();
      if |component| > 0 && |result.path| > 0 {
        if !IsSeparator(result.path[|result.path| - 1]) {
          result.path := result.path + [SEPARATOR];
        }
      }
      result.path := result.path + component;
    }

    /** Collects from the last component to the first, and turns the vector round at the end. */
    method GetComponents() returns (components: seq<string>)
      ensures components == ComponentsOf(path)
    {
      if path == "" {
        return [];
      }
      var retVal: seq<string> := [];
      var current := new FilePath(path);
      var dir := current.DirName();
      while current.path != dir.path
        invariant fresh(current) && fresh(dir) && dir.path == DirNameOf(current.path)
        invariant Climb(path) == Climb(current.path) + Reversed(retVal)
        decreases Height(current.path)
      {
        var base := current.BaseName();
        DirNameIsLower(current.path);
        ClimbOnce(current.path, retVal);
        if !AreAllSeparators(base.path) {
          retVal := retVal + [base.path];
        }
        current := dir;
        dir := current.DirName();
      }
      var root := current.BaseName();
      if root.path != "" && root.path != CURRENT_DIRECTORY {
        retVal := retVal + [root.path];
      }
      components := Reversed(retVal);
    }

    method IsParent(child: FilePath) returns (r: bool)
      ensures r == IsParentOf(path, child.path)
    {
      r := AppendRelativePath(child, null);
    }

    /** The output may be this path or the child: both were split into components before it changes. */
    method AppendRelativePath(child: FilePath, out: FilePath?) returns (r: bool)
      modifies if out == null then {} else {out}
      ensures r == IsParentOf(old(path), old(child.path))
      ensures out != null ==> out.path == AppendRelative(old(path), old(child.path), old(out.path)).1
    {
      var parentComponents := GetComponents();
      var childComponents := child.GetComponents();
      if |parentComponents| == 0 || |parentComponents| >= |childComponents| {
        return false;
      }
      var matches := StartsWithComponents(childComponents, parentComponents);
      if !matches {
        return false;
      }
      if out != null {
        out.AppendComponents(childComponents, |parentComponents|);
      }
      return true;
    }

    /** The first loop of AppendRelativePath. */
    static method StartsWithComponents(child: seq<string>, parent: seq<string>) returns (r: bool)
      requires |parent| < |child|
      ensures r <==> parent < child
    {
      var i := 0;
      while i < |parent|
        invariant 0 <= i <= |parent| && parent[..i] == child[..i]
      {
        if parent[i] != child[i] {
          return false;
        }
        i := i + 1;
      }
      return true;
    }

    /** The last loop of AppendRelativePath. */
    method AppendComponents(components: seq<string>, first: nat)
      requires first <= |components|
      modifies this
      ensures path == AppendAll(old(path), components[first..])
    {
      var i := first;
      while i < |components|
        invariant first <= i <= |components|
        invariant AppendAll(old(path), components[first..]) == AppendAll(path, components[i..])
      {
        var appended := Append(components[i]);
        assert components[i..][1..] == components[i + 1..];
        path := appended.path;
        i := i + 1;
      }
    }
  }

  function Reversed<T>(s: seq<T>): (r: seq<T>)
    ensures |r| == |s|
  {
    if s == [] then [] else [s[|s| - 1]] + Reversed(s[..|s| - 1])
  }

  lemma ReversedSnoc<T>(s: seq<T>, x: T)
    ensures Reversed(s + [x]) == [x] + Reversed(s)
  {
    assert (s + [x])[..|s|] == s;
  }

  lemma ClimbOnce(path: string, collected: seq<string>)
    requires path != DirNameOf(path)
    ensures Climb(path) + Reversed(collected) ==
              Climb(DirNameOf(path)) +
                Reversed(if AreAllSeparators(BaseNameOf(path)) then collected
                         else collected + [BaseNameOf(path)])
  {
    var dir, base := Climb(DirNameOf(path)), BaseNameOf(path);
    assert Climb(path) == if AreAllSeparators(base) then dir + [] else dir + [base];
    MoveAcross(dir, base, collected);
  }

  lemma MoveAcross<T>(s: seq<T>, x: T, collected: seq<T>)
    ensures (s + [x]) + Reversed(collected) == s + Reversed(collected + [x])
    ensures (s + []) + Reversed(collected) == s + Reversed(collected)
  {
    ReversedSnoc(collected, x);
  }

  /** Where the stripping loop may stop. */
  lemma StrippedTo(path: string, pos: nat)
    requires pos <= |path| && AreAllSeparators(path[pos..]) && (pos == 0 ==> path == "")
    requires pos <= 1 || !IsSeparator(path[pos - 1])
    ensures path == "//" || Strip(path) == path[..pos]
  {
    DropTrailingIgnores(path[..pos], path[pos..]);
    assert path == path[..pos] + path[pos..];
    if pos == 0 || !IsSeparator(path[pos - 1]) {
      DropTrailingKeeps(path[..pos]);
    } else {
      DropTrailingOfSeparators(path[..1]);
    }
  }
}
