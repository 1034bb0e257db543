/**
 * The .NET string operations the build tasks rely on: String.Split on one
 * character, joining with one character, String.StartsWith and String.Trim.
 * Strings are sequences of UTF-16 code units, modelled as seq<char>.
 */
module Text {

  predicate StartsWith(s: string, prefix: string) {
    |prefix| <= |s| && s[..|prefix|] == prefix
  }

  predicate EndsWith(s: string, suffix: string) {
    |suffix| <= |s| && s[|s| - |suffix|..] == suffix
  }

  /** Concatenation does not depend on grouping. */
  lemma ConcatAssociative(a: string, b: string, c: string)
    ensures (a + b) + c == a + (b + c)
  {
  }

  /** String.Split(c): the pieces between occurrences of c, empty pieces kept. */
  function Split(s: string, c: char): (parts: seq<string>)
    ensures 1 <= |parts| <= |s| + 1
    ensures forall i :: 0 <= i < |parts| ==> c !in parts[i]
    decreases |s|
  {
    if s == [] then [""]
    else
      var rest := Split(s[1..], c);
      if s[0] == c then [""] + rest
      else [[s[0]] + rest[0]] + rest[1..]
  }

  /** String.Join(c, parts). */
  function Join(parts: seq<string>, c: char): string
    requires |parts| >= 1
    decreases |parts|
  {
    if |parts| == 1 then parts[0] else parts[0] + [c] + Join(parts[1..], c)
  }

  /** Splitting loses nothing: joining the pieces back gives the original string. */
  lemma {:induction false} JoinSplit(s: string, c: char)
    ensures Join(Split(s, c), c) == s
    decreases |s|
  {
    if s != [] {
      JoinSplit(s[1..], c);
      var rest := Split(s[1..], c);
      if s[0] == c {
        assert ([""] + rest)[1..] == rest;
      } else if |rest| > 1 {
        assert ([[s[0]] + rest[0]] + rest[1..])[1..] == rest[1..];
        assert Join(rest, c) == rest[0] + [c] + Join(rest[1..], c);
      }
    }
  }

  lemma {:induction false} SplitPrepend(a: string, s: string, c: char)
    requires c !in a
    ensures Split(a + s, c) == [a + Split(s, c)[0]] + Split(s, c)[1..]
    decreases |a|
  {
    var parts := Split(s, c);
    if a != [] {
      assert (a + s)[0] == a[0] && a[0] != c;
      assert (a + s)[1..] == a[1..] + s;
      SplitPrepend(a[1..], s, c);
      assert [a[0]] + (a[1..] + parts[0]) == a + parts[0];
    } else {
      assert a + s == s && a + parts[0] == parts[0];
      assert parts == [parts[0]] + parts[1..];
    }
  }

  /** Splitting undoes joining when no piece holds the separator. */
  lemma {:induction false} SplitJoin(parts: seq<string>, c: char)
    requires |parts| >= 1
    requires forall i :: 0 <= i < |parts| ==> c !in parts[i]
    ensures Split(Join(parts, c), c) == parts
    decreases |parts|
  {
    if |parts| == 1 {
      SplitPrepend(parts[0], "", c);
      assert parts[0] + "" == parts[0];
    } else {
      var tail := Join(parts[1..], c);
      SplitJoin(parts[1..], c);
      assert Join(parts, c) == parts[0] + ([c] + tail);
      SplitPrepend(parts[0], [c] + tail, c);
      assert ([c] + tail)[0] == c && ([c] + tail)[1..] == tail;
      assert Split([c] + tail, c) == [""] + parts[1..];
      assert parts[0] + "" == parts[0];
      assert ([""] + parts[1..])[1..] == parts[1..];
      assert [parts[0]] + parts[1..] == parts;
    }
  }

  /** A string free of the separator splits into itself alone. */
  lemma SplitOfFree(s: string, c: char)
    ensures c !in s ==> Split(s, c) == [s]
  {
    if c !in s {
      SplitPrepend(s, "", c);
      assert s + "" == s;
    }
  }

  /** The first piece is the longest prefix free of the separator. */
  lemma {:induction false} SplitFirst(s: string, c: char)
    ensures StartsWith(s, Split(s, c)[0])
    ensures c !in Split(s, c)[0]
    ensures |Split(s, c)[0]| == |s| || s[|Split(s, c)[0]|] == c
    decreases |s|
  {
    if s != [] {
      SplitFirst(s[1..], c);
    }
  }

  /** The last piece is the longest suffix free of the separator. */
  lemma {:induction false} SplitLast(s: string, c: char)
    ensures var parts := Split(s, c);
      var last := parts[|parts| - 1];
      EndsWith(s, last) && c !in last && (|last| == |s| || s[|s| - |last| - 1] == c)
    decreases |s|
  {
    if s != [] {
      var t := s[1..];
      var rest := Split(t, c);
      SplitLast(t, c);
      var last := rest[|rest| - 1];
      var parts := Split(s, c);
      if s[0] == c || |rest| > 1 {
        if s[0] == c {
          assert parts == [""] + rest;
        } else {
          assert parts == [[s[0]] + rest[0]] + rest[1..];
          SplitOfFree(t, c);
          assert |last| < |t|;
        }
        assert parts[|parts| - 1] == last;
        assert s[|s| - |last|..] == t[|t| - |last|..];
        if |last| < |t| {
          assert s[|s| - |last| - 1] == t[|t| - |last| - 1];
        }
      } else {
        JoinSplit(t, c);
        assert rest[0] == t;
        assert parts == [[s[0]] + t];
        assert [s[0]] + t == s;
      }
    }
  }

  /** The characters for which Char.IsWhiteSpace holds. */
  const WhiteSpace: set<char> := {
    '\t', '\n', '\U{B}', '\U{C}', '\r', ' ', '\U{85}', '\U{A0}', '\U{1680}',
    '\U{2000}', '\U{2001}', '\U{2002}', '\U{2003}', '\U{2004}', '\U{2005}',
    '\U{2006}', '\U{2007}', '\U{2008}', '\U{2009}', '\U{200A}',
    '\U{2028}', '\U{2029}', '\U{202F}', '\U{205F}', '\U{3000}'
  }

  /** Drops the leading characters of ws. */
  function TrimStart(s: string, ws: set<char>): (r: string)
    ensures |r| <= |s|
    decreases |s|
  {
    if |s| > 0 && s[0] in ws then TrimStart(s[1..], ws) else s
  }

  /** TrimStart removes exactly the longest prefix made of ws. */
  lemma {:induction false} TrimStartDrops(s: string, ws: set<char>)
    ensures var r := TrimStart(s, ws);
      EndsWith(s, r)
      && (forall i :: 0 <= i < |s| - |r| ==> s[i] in ws)
      && (|r| > 0 ==> r[0] !in ws)
    decreases |s|
  {
    if |s| > 0 && s[0] in ws {
      TrimStartDrops(s[1..], ws);
      var r := TrimStart(s, ws);
      forall i | 0 < i < |s| - |r| ensures s[i] in ws {
        assert s[i] == s[1..][i - 1];
      }
    }
  }

  /** Drops the trailing characters of ws. */
  function TrimEnd(s: string, ws: set<char>): (r: string)
    ensures |r| <= |s|
    decreases |s|
  {
    if |s| > 0 && s[|s| - 1] in ws then TrimEnd(s[..|s| - 1], ws) else s
  }

  /** TrimEnd removes exactly the longest suffix made of ws. */
  lemma {:induction false} TrimEndDrops(s: string, ws: set<char>)
    ensures var r := TrimEnd(s, ws);
      StartsWith(s, r)
      && (forall i :: |r| <= i < |s| ==> s[i] in ws)
      && (|r| > 0 ==> r[|r| - 1] !in ws)
    decreases |s|
  {
    if |s| > 0 && s[|s| - 1] in ws {
      TrimEndDrops(s[..|s| - 1], ws);
      var r := TrimEnd(s, ws);
      forall i | |r| <= i < |s| - 1 ensures s[i] in ws {
        assert s[i] == s[..|s| - 1][i];
      }
    }
  }

  /** String.Trim over the character set ws. */
  function Trim(s: string, ws: set<char>): (r: string)
  {
    TrimEnd(TrimStart(s, ws), ws)
  }

  /**
   * Trim removes exactly the run of ws at each end: the result is the infix
   * s[a..a + |r|], everything outside it is in ws, and it neither starts nor
   * ends with a character of ws.
   */
  lemma TrimIsInfix(s: string, ws: set<char>)
    ensures var r := Trim(s, ws);
      var a := |s| - |TrimStart(s, ws)|;
      a + |r| <= |s| && r == s[a..a + |r|] &&
      (forall i :: 0 <= i < a ==> s[i] in ws) &&
      (forall i :: a + |r| <= i < |s| ==> s[i] in ws) &&
      (|r| > 0 ==> r[0] !in ws && r[|r| - 1] !in ws)
  {
    var t := TrimStart(s, ws);
    var r := Trim(s, ws);
    var a := |s| - |t|;
    TrimStartDrops(s, ws);
    TrimEndDrops(t, ws);
    assert t == s[a..];
    assert r == t[..|r|];
    forall i | a + |r| <= i < |s| ensures s[i] in ws {
      assert s[i] == t[i - a];
    }
  }

  /** A string that neither starts nor ends with ws is left unchanged. */
  lemma TrimUnchanged(s: string, ws: set<char>)
    requires |s| > 0 ==> s[0] !in ws && s[|s| - 1] !in ws
    ensures Trim(s, ws) == s
  {
  }

  /** Trimming twice is trimming once. */
  lemma TrimIdempotent(s: string, ws: set<char>)
    ensures Trim(Trim(s, ws), ws) == Trim(s, ws)
  {
    TrimIsInfix(s, ws);
    TrimUnchanged(Trim(s, ws), ws);
  }
}
