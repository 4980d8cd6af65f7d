/** The parts of Node's POSIX `path` module the batch scripts use:
    `extname`, `basename` (with and without a suffix) and `dirname`, for paths
    that do not end in '/' (every path built by listFiles ends in a file name). */
module Paths {
  import opened Strings

  /** Index of the last occurrence of `c` in `s[lo..hi]`, if any. */
  function LastIndexBelow(s: string, c: char, lo: nat, hi: nat): (r: Option<nat>)
    requires hi <= |s|
    ensures r.Some? ==> lo <= r.value < hi && s[r.value] == c
    decreases hi
  {
    if hi <= lo then None
    else if s[hi - 1] == c then Some(hi - 1)
    else LastIndexBelow(s, c, lo, hi - 1)
  }

  /** Index of the last occurrence of `c` at or after `lo`, if any. */
  function LastIndexFrom(s: string, c: char, lo: nat): (r: Option<nat>)
    ensures r.Some? ==> lo <= r.value < |s| && s[r.value] == c
  {
    LastIndexBelow(s, c, lo, |s|)
  }

  lemma {:induction false} LastIndexBelowSpec(s: string, c: char, lo: nat, hi: nat)
    requires hi <= |s|
    ensures var r := LastIndexBelow(s, c, lo, hi);
      && (r.Some? ==> forall j :: r.value < j < hi ==> s[j] != c)
      && (r.None? ==> forall j :: lo <= j < hi ==> s[j] != c)
    decreases hi
  {
    if lo < hi && s[hi - 1] != c {
      LastIndexBelowSpec(s, c, lo, hi - 1);
    }
  }

  /** The index found is the last one, and none is found only when `c` does
      not occur from `lo` on. */
  lemma LastIndexFromSpec(s: string, c: char, lo: nat)
    ensures var r := LastIndexFrom(s, c, lo);
      && (r.Some? ==> forall j :: r.value < j < |s| ==> s[j] != c)
      && (r.None? ==> forall j :: lo <= j < |s| ==> s[j] != c)
  {
    LastIndexBelowSpec(s, c, lo, |s|);
  }

  /** `path.basename(p)`: what follows the last '/'. */
  function Basename(p: string): string {
    match LastIndexFrom(p, '/', 0)
    case None => p
    case Some(i) => p[i + 1..]
  }

  /** The base name holds no separator, and a path without separators is
      its own base name. */
  lemma BasenameSpec(p: string)
    ensures Free(Basename(p), '/')
    ensures Free(p, '/') ==> Basename(p) == p
  {
    LastIndexFromSpec(p, '/', 0);
    match LastIndexFrom(p, '/', 0)
    case None =>
    case Some(i) =>
      var b := p[i + 1..];
      forall k | 0 <= k < |b| ensures b[k] != '/' {
        assert b[k] == p[i + 1 + k];
      }
  }

  /** `path.extname(p)`: from the last '.' of the base name to its end, except
      that a base name with no '.', one whose only leading part is the dot
      (".bashrc"), or ".." has no extension. */
  function ExtName(p: string): (e: string)
    ensures e == [] || e[0] == '.'
  {
    var base := Basename(p);
    match LastIndexFrom(base, '.', 0)
    case None => ""
    case Some(i) => if i == 0 || base == ".." then "" else base[i..]
  }

  /** `path.basename(p, path.extname(p))`: the base name without its extension. */
  function Stem(p: string): string {
    var base := Basename(p);
    match LastIndexFrom(base, '.', 0)
    case None => base
    case Some(i) => if i == 0 || base == ".." then base else base[..i]
  }

  /** The stem holds no separator. */
  lemma StemFree(p: string)
    ensures Free(Stem(p), '/')
  {
    BasenameSpec(p);
    var base := Basename(p);
    forall k | 0 <= k < |Stem(p)| ensures Stem(p)[k] != '/' {
      assert Stem(p)[k] == base[k];
    }
  }

  /** `path.dirname(p)`: everything before the last '/' (a '/' in first
      position does not count as a separator), "/" or "//" when that leaves
      only the root, and "." when there is no separator at all. */
  function Dirname(p: string): string {
    if p == [] then "."
    else
      match LastIndexFrom(p, '/', 1)
      case None => if p[0] == '/' then "/" else "."
      case Some(i) => if p[0] == '/' && i == 1 then "//" else p[..i]
  }

  /** The extension is a suffix of the base name and the stem is the rest:
      stem and extension put back together give the base name. */
  lemma StemAndExt(p: string)
    ensures Stem(p) + ExtName(p) == Basename(p)
  {
    var base := Basename(p);
    match LastIndexFrom(base, '.', 0)
    case None =>
    case Some(i) =>
      if i != 0 && base != ".." {
        assert base[..i] + base[i..] == base;
      }
  }

  /** A file name that ends in ".mp4" after at least one other character
      has the extension ".mp4". */
  lemma Mp4ExtName(name: string)
    requires Free(name, '/') && |name| >= 5
    requires name[|name| - 4..] == ".mp4"
    ensures ExtName(name) == ".mp4"
  {
    assert name[|name| - 4] == '.';
    BasenameSpec(name);
    LastIndexFromSpec(name, '.', 0);
    var i := LastIndexFrom(name, '.', 0);
    assert i.Some? && i.value == |name| - 4;
  }

  /** Appending "/" and a name without separators to any directory gives
      back that name as the base name. */
  lemma BasenameOfChild(dir: string, name: string)
    requires Free(name, '/')
    ensures Basename(dir + "/" + name) == name
  {
    var p := dir + "/" + name;
    assert p[|dir|] == '/';
    LastIndexFromSpec(p, '/', 0);
    var r := LastIndexFrom(p, '/', 0);
    assert r.Some?;
    assert r.value == |dir|;
    assert p[|dir| + 1..] == name;
  }

  /** In a path `dir + "/" + name` with `dir` a rooted path of two or more
      characters, dirname gives `dir` back. */
  lemma DirnameOfChild(dir: string, name: string)
    requires |dir| >= 2 && dir[0] == '/'
    requires Free(name, '/')
    ensures Dirname(dir + "/" + name) == dir
  {
    var p := dir + "/" + name;
    assert p[|dir|] == '/';
    LastIndexFromSpec(p, '/', 1);
    var r := LastIndexFrom(p, '/', 1);
    assert r.Some?;
    assert r.value == |dir|;
    assert p[..|dir|] == dir;
  }
}
