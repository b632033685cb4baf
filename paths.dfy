/** The string and path helpers the upload handlers rely on: Node's
    `path.basename`, `path.extname` and `path.join` for the paths a
    directory walk produces, and `String.prototype.replace` with a string
    pattern (which replaces the first occurrence only). */
module Paths {

  /** Index of the last occurrence of `c` in `s`, or -1 when there is none. */
  function LastIndexOf(s: string, c: char): (i: int)
    ensures -1 <= i < |s|
    ensures i >= 0 ==> s[i] == c
    ensures forall j :: i < j < |s| ==> s[j] != c
  {
    if s == [] then -1
    else if s[|s| - 1] == c then |s| - 1
    else LastIndexOf(s[..|s| - 1], c)
  }

  /** `path.basename(p)`: the text after the last '/'. */
  function Basename(p: string): string
  {
    p[LastIndexOf(p, '/') + 1..]
  }

  /** The basename is the longest suffix of the path that holds no '/'. */
  lemma BasenameIsLastSegment(p: string)
    ensures |Basename(p)| <= |p| && Basename(p) == p[|p| - |Basename(p)|..]
    ensures forall k :: 0 <= k < |Basename(p)| ==> Basename(p)[k] != '/'
    ensures '/' !in Basename(p)
    ensures |Basename(p)| < |p| ==> p[|p| - |Basename(p)| - 1] == '/'
  {
    assert forall k :: 0 <= k < |Basename(p)| ==> Basename(p)[k] != '/';
  }

  /** The extension of a file name: its suffix from its last '.', or "" when
      the name has no '.', has its last '.' at its start, or is "..". */
  function NameExtension(name: string): (e: string)
    ensures e != "" ==> e[0] == '.' && forall k :: 0 < k < |e| ==> e[k] != '.'
    ensures e != "" ==> |e| < |name| && e == name[|name| - |e|..]
    ensures e == "" <==> name == ".." || forall k :: 0 < k < |name| ==> name[k] != '.'
  {
    var d := LastIndexOf(name, '.');
    if d <= 0 || name == ".." then ""
    else
      var e := name[d..];
      assert forall k :: 0 < k < |e| ==> e[k] == name[d + k];
      e
  }

  /** A name made of a non-empty stem and a suffix that starts with its
      only '.' has that suffix as its extension, unless the name is "..". */
  lemma NameExtensionOfSuffix(stem: string, ext: string)
    requires stem != [] && stem + ext != ".."
    requires ext != [] && ext[0] == '.' && forall k :: 0 < k < |ext| ==> ext[k] != '.'
    ensures NameExtension(stem + ext) == ext
  {
    var name := stem + ext;
    LastIndexOfIs(name, '.', |stem|);
    assert name[|stem|..] == ext;
  }

  /** `path.extname(p)`: the extension of the basename. */
  function Extname(p: string): string
  {
    NameExtension(Basename(p))
  }

  /** The extension of a path is the suffix of its basename from the
      basename's last '.', and it is empty exactly when the basename is ".."
      or has no '.' after its first character. */
  lemma ExtnameOfPath(p: string)
    ensures var name, e := Basename(p), Extname(p);
      e == "" || (e[0] == '.' && |e| < |name| && e == name[|name| - |e|..])
    ensures forall k :: 0 < k < |Extname(p)| ==> Extname(p)[k] != '.'
    ensures var name, e := Basename(p), Extname(p);
      e == "" <==> name == ".." || forall k :: 0 < k < |name| ==> name[k] != '.'
  {
  }

  /** `path.join(dir, name)` for a directory and a plain file name. */
  function Join(dir: string, name: string): string
  {
    dir + "/" + name
  }

  lemma JoinAppend(dir: string, rel: string, more: string)
    ensures Join(dir, rel) + more == Join(dir, rel + more)
  {
  }

  /** The basename of a joined path is the name that was joined. */
  lemma BasenameOfJoin(dir: string, name: string)
    requires '/' !in name
    ensures Basename(Join(dir, name)) == name
  {
    var p := Join(dir, name);
    assert p[|p| - |name| - 1] == '/';
    assert p[|p| - |name|..] == name;
  }

  /** The extension depends on the basename only. */
  lemma ExtnameOfBasename(p: string)
    ensures Extname(Basename(p)) == Extname(p)
  {
    BasenameOfPlainName(Basename(p));
  }

  /** A name without '/' is its own basename. */
  lemma BasenameOfPlainName(name: string)
    requires '/' !in name
    ensures Basename(name) == name
  {
  }

  /** Moving a file into another directory keeps its name and its extension. */
  lemma JoinKeepsNameAndExtension(dir: string, p: string)
    ensures Basename(Join(dir, Basename(p))) == Basename(p)
    ensures Extname(Join(dir, Basename(p))) == Extname(p)
  {
    BasenameOfJoin(dir, Basename(p));
    ExtnameOfBasename(p);
  }

  /** The UTF-16 code units of one character: two for a character outside
      the Basic Multilingual Plane, one otherwise. */
  function CodeUnits(c: char): nat
  {
    if c as int > 0xFFFF then 2 else 1
  }

  /** `s.length` of a JavaScript string, which counts UTF-16 code units. */
  function Utf16Length(s: string): int
  {
    if s == [] then 0 else CodeUnits(s[0]) + Utf16Length(s[1..])
  }

  /** The JavaScript length lies between the number of characters and twice
      that number. */
  lemma {:induction false} Utf16LengthBounds(s: string)
    ensures |s| <= Utf16Length(s) <= 2 * |s|
  {
    if s != [] {
      Utf16LengthBounds(s[1..]);
    }
  }

  /** The JavaScript length of a concatenation is the sum of the lengths. */
  lemma {:induction false} Utf16LengthAppend(a: string, b: string)
    ensures Utf16Length(a + b) == Utf16Length(a) + Utf16Length(b)
  {
    if a != [] {
      assert (a + b)[1..] == a[1..] + b;
      Utf16LengthAppend(a[1..], b);
    } else {
      assert a + b == b;
    }
  }

  /** A proper prefix is shorter in JavaScript too. */
  lemma Utf16LengthOfProperPrefix(a: string, b: string)
    requires a < b
    ensures Utf16Length(a) < Utf16Length(b)
  {
    assert b == a + b[|a|..];
    Utf16LengthAppend(a, b[|a|..]);
    Utf16LengthBounds(b[|a|..]);
  }

  /** `pat` occurs in `s` at index `i`. */
  predicate OccursAt(s: string, pat: string, i: int)
  {
    0 <= i && i + |pat| <= |s| && s[i..i + |pat|] == pat
  }

  lemma OccursShiftedAt(s: string, pat: string, j: int)
    requires s != [] && 1 <= j
    ensures OccursAt(s, pat, j) <==> OccursAt(s[1..], pat, j - 1)
  {
    if j + |pat| <= |s| {
      var u, v := s[j..j + |pat|], s[1..][j - 1..j - 1 + |pat|];
      assert |u| == |v|;
      forall k | 0 <= k < |u|
        ensures u[k] == v[k]
      {
        assert u[k] == s[j + k];
        assert v[k] == s[1..][j - 1 + k];
      }
      assert u == v;
    }
  }

  lemma OccursShifted(s: string, pat: string)
    requires s != []
    ensures forall j :: 1 <= j ==> (OccursAt(s, pat, j) <==> OccursAt(s[1..], pat, j - 1))
  {
    forall j | 1 <= j
      ensures OccursAt(s, pat, j) <==> OccursAt(s[1..], pat, j - 1)
    {
      OccursShiftedAt(s, pat, j);
    }
  }

  /** `s.indexOf(pat)`: the first index at which `pat` occurs, or -1. */
  function IndexOf(s: string, pat: string): (i: int)
    ensures -1 <= i <= |s|
    ensures i >= 0 ==> OccursAt(s, pat, i)
    ensures forall j :: 0 <= j && (i < 0 || j < i) ==> !OccursAt(s, pat, j)
    decreases |s|
  {
    if |s| < |pat| then -1
    else if s[..|pat|] == pat then 0
    else
      assert !OccursAt(s, pat, 0) by { assert s[0..|pat|] == s[..|pat|]; }
      var k := IndexOf(s[1..], pat);
      var i := if k < 0 then -1 else k + 1;
      assert (i >= 0 ==> OccursAt(s, pat, i)) && forall j :: 1 <= j && (i < 0 || j < i) ==> !OccursAt(s, pat, j) by {
        OccursShifted(s, pat);
      }
      i
  }

  /** `s.replace(pat, '')`: the first occurrence of `pat` removed. */
  function RemoveFirst(s: string, pat: string): string
  {
    var i := IndexOf(s, pat);
    if i < 0 then s else s[..i] + s[i + |pat|..]
  }

  /** Putting `pat` back where its first occurrence was gives `s` again;
      without an occurrence nothing is removed. */
  lemma RemoveFirstRestores(s: string, pat: string)
    ensures IndexOf(s, pat) < 0 ==> RemoveFirst(s, pat) == s
    ensures IndexOf(s, pat) >= 0 ==>
      var i, r := IndexOf(s, pat), RemoveFirst(s, pat);
      |r| + |pat| == |s| && r[..i] + pat + r[i..] == s
  {
    var i := IndexOf(s, pat);
    if i >= 0 {
      var r := RemoveFirst(s, pat);
      assert r[..i] == s[..i] && r[i..] == s[i + |pat|..];
      assert s == s[..i] + s[i..i + |pat|] + s[i + |pat|..];
    }
  }

  /** The string without its first character when that is a '/', and
      unchanged otherwise. */
  function StripLeadingSlash(s: string): string
  {
    if |s| > 0 && s[0] == '/' then s[1..] else s
  }

  /** The public link of a file: its path with the first occurrence of the
      root directory removed and then at most one leading '/' dropped. */
  function RelativeLink(path: string, root: string): string
  {
    StripLeadingSlash(RemoveFirst(path, root))
  }

  /** For a path under the root, the link is the rest of the path with its
      separating '/' dropped. */
  lemma {:induction false} RelativeLinkUnderRoot(root: string, rest: string)
    ensures RelativeLink(root + rest, root) ==
      if |rest| > 0 && rest[0] == '/' then rest[1..] else rest
  {
    var s := root + rest;
    assert s[..|root|] == root;
    assert IndexOf(s, root) == 0;
    assert RemoveFirst(s, root) == rest by {
      assert s[0 + |root|..] == rest;
    }
  }

  /** Joining a relative path to the root and taking the link gives the
      relative path back. */
  lemma RelativeLinkOfJoin(root: string, rel: string)
    ensures RelativeLink(Join(root, rel), root) == rel
  {
    var rest := "/" + rel;
    assert Join(root, rel) == root + rest;
    RelativeLinkUnderRoot(root, rest);
    assert rest[0] == '/' && rest[1..] == rel;
  }

  /** The last occurrence is determined by the characterisation in the
      contract of `LastIndexOf`. */
  lemma LastIndexOfIs(s: string, c: char, k: int)
    requires -1 <= k < |s|
    requires k >= 0 ==> s[k] == c
    requires forall j :: k < j < |s| ==> s[j] != c
    ensures LastIndexOf(s, c) == k
  {
  }

  /** Joining a directory in front of a path leaves its basename alone. */
  lemma BasenameOfJoinedPath(dir: string, rel: string)
    ensures Basename(Join(dir, rel)) == Basename(rel)
  {
    var p := Join(dir, rel);
    var last := LastIndexOf(rel, '/');
    var k := |dir| + 1 + last;
    assert p[|dir|] == '/';
    assert forall j :: |dir| < j < |p| ==> p[j] == rel[j - |dir| - 1];
    LastIndexOfIs(p, '/', k);
    assert p[k + 1..] == rel[last + 1..];
  }

  /** A path that does not mention the root keeps all of its text. */
  lemma RelativeLinkOutsideRoot(path: string, root: string)
    requires forall j :: 0 <= j ==> !OccursAt(path, root, j)
    ensures RelativeLink(path, root) == StripLeadingSlash(path)
  {
  }
}
