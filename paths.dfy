/**
 * The System.IO.Path operations the tasks call, under one stated abstraction:
 * '/' and '\\' both separate directories, a path is rooted when it starts with
 * a separator or a drive letter and colon, and GetFullPath does not normalise
 * "." or ".." segments.
 */
module Paths {
  import opened Wrappers
  import opened Text

  predicate IsSeparator(c: char) {
    c == '/' || c == '\\'
  }

  predicate IsRooted(p: string) {
    (|p| > 0 && IsSeparator(p[0])) || (|p| >= 2 && p[1] == ':')
  }

  /** Path.GetFileName: what follows the last directory separator. */
  function FileName(p: string): string
    decreases |p|
  {
    if |p| == 0 || IsSeparator(p[|p| - 1]) then ""
    else FileName(p[..|p| - 1]) + [p[|p| - 1]]
  }

  /** The file name is the longest suffix of the path free of separators. */
  lemma {:induction false} FileNameIsLastSegment(p: string)
    ensures var name := FileName(p);
      EndsWith(p, name)
      && (forall i :: 0 <= i < |name| ==> !IsSeparator(name[i]))
      && (|name| == |p| || IsSeparator(p[|p| - |name| - 1]))
    decreases |p|
  {
    if |p| > 0 && !IsSeparator(p[|p| - 1]) {
      var init := p[..|p| - 1];
      var last := p[|p| - 1];
      FileNameIsLastSegment(init);
      var name := FileName(init);
      var whole := FileName(p);
      assert whole == name + [last];
      assert p == init + [last];
      var a := |init| - |name|;
      assert p[a..] == init[a..] + [last];
      forall i | 0 <= i < |whole| ensures !IsSeparator(whole[i]) {
        if i < |name| {
          assert whole[i] == name[i];
        }
      }
      if a > 0 {
        assert p[a - 1] == init[a - 1];
      }
    }
  }

  /** String.LastIndexOf(c), None for -1. */
  function LastIndexOf(s: string, c: char): (r: Option<nat>)
    ensures r.None? ==> c !in s
    ensures r.Some? ==> r.value < |s| && s[r.value] == c && c !in s[r.value + 1..]
    decreases |s|
  {
    if |s| == 0 then None
    else if s[|s| - 1] == c then Some(|s| - 1)
    else LastIndexOf(s[..|s| - 1], c)
  }

  /** Path.GetFileNameWithoutExtension: the file name up to its last '.'. */
  function FileNameWithoutExtension(p: string): (r: string)
  {
    var name := FileName(p);
    match LastIndexOf(name, '.')
    case None => name
    case Some(i) => name[..i]
  }

  /**
   * The base name is the file name with its last extension removed: the whole
   * file name when it has no '.', otherwise the part before its last '.'.
   */
  lemma FileNameWithoutExtensionIsBase(p: string)
    ensures var name := FileName(p);
      var r := FileNameWithoutExtension(p);
      StartsWith(name, r) &&
      ('.' !in name ==> r == name) &&
      ('.' in name ==> |r| < |name| && name[|r|] == '.' && '.' !in name[|r| + 1..])
  {
    var name := FileName(p);
    match LastIndexOf(name, '.')
    case None =>
    case Some(i) =>
      assert FileNameWithoutExtension(p) == name[..i];
  }

  /** After a trailing separator, a name free of separators is the file name. */
  lemma {:induction false} FileNameAfterSeparator(prefix: string, name: string)
    requires |prefix| > 0 && IsSeparator(prefix[|prefix| - 1])
    requires forall i :: 0 <= i < |name| ==> !IsSeparator(name[i])
    ensures FileName(prefix + name) == name
    decreases |name|
  {
    if name == [] {
      assert prefix + name == prefix;
    } else {
      var init := name[..|name| - 1];
      FileNameAfterSeparator(prefix, init);
      assert (prefix + name)[..|prefix + name| - 1] == prefix + init;
      assert init + [name[|name| - 1]] == name;
    }
  }

  /** The last c of s + [c] + t, when t holds no c, is the one between them. */
  lemma LastIndexOfBefore(s: string, c: char, t: string)
    requires c !in t
    ensures LastIndexOf(s + [c] + t, c) == Some(|s|)
  {
    var u := s + [c] + t;
    assert u[|s|] == c;
    assert u[|s| + 1..] == t;
  }

  /** Index of the last directory separator, None when there is none. */
  function LastSeparator(p: string): (r: Option<nat>)
    ensures r.None? ==> forall i :: 0 <= i < |p| ==> !IsSeparator(p[i])
    ensures r.Some? ==> r.value < |p| && IsSeparator(p[r.value])
    ensures r.Some? ==> forall i :: r.value < i < |p| ==> !IsSeparator(p[i])
    decreases |p|
  {
    if |p| == 0 then None
    else if IsSeparator(p[|p| - 1]) then Some(|p| - 1)
    else LastSeparator(p[..|p| - 1])
  }

  /** The length of the root a path starts with: "/", "C:" or "C:\\"; 0 for a relative path. */
  function RootLength(p: string): (n: nat)
    ensures n <= |p|
    ensures n > 0 <==> IsRooted(p)
  {
    if |p| >= 2 && p[1] == ':' then (if |p| >= 3 && IsSeparator(p[2]) then 3 else 2)
    else if |p| > 0 && IsSeparator(p[0]) then 1
    else 0
  }

  /**
   * Path.GetDirectoryName: the part before the last separator, or the root
   * when that separator belongs to it ("C:\\x" gives "C:\\"); "" for a bare
   * relative file name; None (.NET's null) for a path that is only a root.
   */
  function DirectoryName(p: string): (dir: Option<string>)
    ensures dir.None? <==> p != "" && |p| == RootLength(p)
    ensures dir.Some? ==> StartsWith(p, dir.value) && RootLength(p) <= |dir.value|
    ensures dir.Some? && p != "" ==> |dir.value| < |p|
    ensures dir.Some? && |dir.value| > RootLength(p) ==> IsSeparator(p[|dir.value|])
    ensures dir.Some? ==> forall i :: |dir.value| < i < |p| ==> !IsSeparator(p[i])
    ensures (forall i :: 0 <= i < |p| ==> !IsSeparator(p[i])) && !IsRooted(p) ==> dir == Some("")
  {
    var root := RootLength(p);
    if p != "" && |p| == root then None
    else
      match LastSeparator(p)
      case None => Some(p[..root])
      case Some(i) => if i < root then Some(p[..root]) else Some(p[..i])
  }

  /** Separator-free text after a path does not move its last separator. */
  lemma {:induction false} LastSeparatorSkips(a: string, b: string)
    requires forall i :: 0 <= i < |b| ==> !IsSeparator(b[i])
    ensures LastSeparator(a + b) == LastSeparator(a)
    decreases |b|
  {
    if b == [] {
      assert a + b == a;
    } else {
      var p := a + b;
      assert p[..|p| - 1] == a + b[..|b| - 1];
      LastSeparatorSkips(a, b[..|b| - 1]);
    }
  }

  /**
   * Roots keep their separator: a file directly under "C:\\" or "/" lies in
   * that root, one after the drive-relative "C:" lies in "C:", and a root
   * alone has no directory.
   */
  lemma DirectoryNameOfRoots(drive: char, name: string)
    requires 'A' <= drive <= 'Z' || 'a' <= drive <= 'z'
    requires name != [] && ':' !in name && forall i :: 0 <= i < |name| ==> !IsSeparator(name[i])
    ensures DirectoryName([drive, ':', '\\'] + name) == Some([drive, ':', '\\'])
    ensures DirectoryName(['/'] + name) == Some("/")
    ensures DirectoryName([drive, ':'] + name) == Some([drive, ':'])
    ensures DirectoryName([drive, ':', '\\']) == None && DirectoryName("/") == None
  {
    LastSeparatorSkips([drive, ':', '\\'], name);
    assert LastSeparator([drive, ':', '\\']) == Some(2);
    LastSeparatorSkips(['/'], name);
    assert LastSeparator(['/']) == Some(0);
    LastSeparatorSkips([drive, ':'], name);
    assert LastSeparator([drive, ':']) == LastSeparator([drive]) == None;
    assert ([drive, ':', '\\'] + name)[..3] == [drive, ':', '\\'];
    assert (['/'] + name)[..1] == "/";
    assert ([drive, ':'] + name)[..2] == [drive, ':'];
  }

  /** Path.Combine(dir, name) with sep as the platform's directory separator. */
  function Combine(dir: string, name: string, sep: char): string
  {
    if dir == "" || IsRooted(name) then name
    else if IsSeparator(dir[|dir| - 1]) then dir + name
    else dir + [sep] + name
  }

  /**
   * The combined path ends with name; a rooted name, or an empty dir, gives
   * name alone, and otherwise the path starts with dir and at most one
   * separator is put between them.
   */
  lemma CombineShape(dir: string, name: string, sep: char)
    ensures var r := Combine(dir, name, sep);
      EndsWith(r, name) &&
      (dir == "" || IsRooted(name) ==> r == name) &&
      (dir != "" && !IsRooted(name) ==> StartsWith(r, dir) && |dir| + |name| <= |r| <= |dir| + |name| + 1)
  {
    var r := Combine(dir, name, sep);
    if dir != "" && !IsRooted(name) {
      if IsSeparator(dir[|dir| - 1]) {
        assert r[|r| - |name|..] == name;
        assert r[..|dir|] == dir;
      } else {
        assert r[|r| - |name|..] == name;
        assert r[..|dir|] == dir;
      }
    }
  }

  /** Path.GetFullPath against the current directory cwd; None where .NET throws for "". */
  function FullPath(p: string, cwd: string, sep: char): (r: Option<string>)
    requires IsRooted(cwd)
    ensures r.None? <==> p == ""
    ensures r.Some? ==> IsRooted(r.value) && EndsWith(r.value, p)
  {
    if p == "" then None
    else if IsRooted(p) then Some(p)
    else
      CombineShape(cwd, p, sep);
      Some(Combine(cwd, p, sep))
  }
}
