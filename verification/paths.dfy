/**
 * Path names as the file component sees them through java.io.File: a path is
 * a string, a child path is its parent followed by the separator and the
 * child's name, and a relative path is resolved against the working
 * directory. Platform normalisation (doubled or trailing separators, "." and
 * "..", drive letters) is not modelled.
 */
module Paths {
  import opened Wrappers

  /** File.separatorChar on the platforms this model describes. */
  const Separator: char := '/'

  /**
   * `new File(parent, child)`; a null parent means `new File(child)`. An
   * empty child names the parent itself, and an empty parent stands for the
   * root. Otherwise the child's name follows the parent and one separator: a
   * separator the child begins with is that separator, and the root already
   * ends where the separator stands.
   */
  function Child(parent: Option<string>, child: string): (r: string)
    ensures parent.None? ==> r == child
    ensures parent.Some? && child == [] ==> r == (if parent.value == [] then [Separator] else parent.value)
    ensures parent.Some? && child != [] ==>
      var name := if child[0] == Separator then child[1..] else child;
      var n := |r| - |name| - 1;
      0 <= n && r[n] == Separator && r[n + 1..] == name &&
      r[..n] == (if parent.value == [Separator] then [] else parent.value)
    ensures parent.Some? && (parent.value == [] || parent.value[0] == Separator) ==> IsAbsolute(r)
  {
    match parent
    case None => child
    case Some(p) =>
      var dir := if p == [] || p == [Separator] then [] else p;
      if child == [] then (if p == [] then [Separator] else p)
      else if child[0] == Separator then dir + child
      else dir + [Separator] + child
  }

  predicate IsAbsolute(path: string)
  {
    |path| > 0 && path[0] == Separator
  }

  /** File.getAbsolutePath: a relative path is resolved against the working directory. */
  function Absolute(cwd: string, path: string): (r: string)
    ensures IsAbsolute(cwd) ==> IsAbsolute(r)
    ensures IsAbsolute(path) ==> r == path
    ensures !IsAbsolute(path) ==> r == Child(Some(cwd), path)
  {
    if IsAbsolute(path) then path else Child(Some(cwd), path)
  }

  /**
   * The file the operating system opens for the java.io.File path `path`:
   * a relative path is resolved against the working directory, as by
   * getAbsolutePath, but the empty path names no file and stays empty.
   */
  function OpenedPath(cwd: string, path: string): string
  {
    if path == [] then [] else Absolute(cwd, path)
  }

  /** String.lastIndexOf(char): the last position holding `c`, or -1. */
  function LastIndexOf(s: string, c: char): (r: int)
    ensures -1 <= r < |s|
    ensures r >= 0 ==> s[r] == c
    ensures forall i :: r < i < |s| ==> s[i] != c
    ensures r == -1 <==> c !in s
  {
    if |s| == 0 then -1
    else if s[|s| - 1] == c then |s| - 1
    else LastIndexOf(s[..|s| - 1], c)
  }

  /**
   * The directory name FileProducer.buildDirectory computes from an absolute
   * path: everything before the last separator, but only when that separator
   * is not the first character (so nothing for a file directly under the root).
   */
  function ParentDirectory(absPath: string): (r: Option<string>)
    ensures r.None? <==> forall i :: 0 < i < |absPath| ==> absPath[i] != Separator
    ensures r.Some? ==>
      0 < |r.value| < |absPath| &&
      absPath[..|r.value|] == r.value &&
      absPath[|r.value|] == Separator &&
      Separator !in absPath[|r.value| + 1..]
  {
    var index := LastIndexOf(absPath, Separator);
    if index > 0 then Some(absPath[..index]) else None
  }

  /**
   * `a` names `path` itself or one of the directories on the way to it: a
   * non-empty prefix of `path` that ends where a separator or `path` ends.
   */
  ghost predicate IsAncestorOrSelf(a: string, path: string)
  {
    0 < |a| <= |path| && a == path[..|a|] && (|a| == |path| || path[|a|] == Separator)
  }

  /** The directories File.mkdirs has to make for `path`: the path and all of its ancestors. */
  function Ancestors(path: string): (r: set<string>)
    ensures forall a :: a in r <==> IsAncestorOrSelf(a, path)
    ensures path != "" ==> path in r
  {
    var r := set i | 0 < i <= |path| && (i == |path| || path[i] == Separator) :: path[..i];
    assert forall a :: IsAncestorOrSelf(a, path) ==> a in r by {
      forall a | IsAncestorOrSelf(a, path) ensures a in r {
        var i := |a|;
        assert path[..i] == a;
      }
    }
    assert path != "" ==> path[..|path|] == path;
    r
  }

  /** An ancestor of an ancestor is an ancestor. */
  lemma AncestorsClosed(a: string, path: string)
    requires a in Ancestors(path)
    ensures Ancestors(a) <= Ancestors(path)
  {
    forall b | b in Ancestors(a) ensures b in Ancestors(path) {
      assert IsAncestorOrSelf(b, a);
      assert a[..|b|] == path[..|b|];
      assert |b| < |a| ==> a[|b|] == path[|b|];
    }
  }

  /**
   * The directory built for a child path is its parent, as long as the
   * parent is neither empty nor the root and the child's name is not empty
   * and holds no separator.
   */
  lemma ParentOfChild(parent: string, name: string)
    requires |parent| > 0 && parent != [Separator] && name != [] && Separator !in name
    ensures ParentDirectory(Child(Some(parent), name)) == Some(parent)
  {
    var s := Child(Some(parent), name);
    assert s[|parent|] == Separator;
    forall i | |parent| < i < |s| ensures s[i] != Separator {
      assert s[i] == name[i - |parent| - 1];
    }
    var r := ParentDirectory(s);
    assert r.Some?;
    assert |r.value| == |parent|;
    assert s[..|parent|] == parent;
  }
}
