/**
 * Paths of the filesystem the sorter works on, and the parts of `pathlib`
 * the sorter relies on: `str(path)`, `Path(text)`, `.suffix`, `.stem` and
 * `str.lower`.
 */
module Paths {

  import opened Wrappers

  /** One component of a path: the name of a file or of a directory. */
  type Name = string

  /** A directory, given by the names leading from the root down to it. */
  type Dir = seq<Name>

  /** An entry of the filesystem: the directory that holds it and its own name. */
  datatype Path = Path(parent: Dir, name: Name) {
    /** The names leading from the root to this entry, its own name last. */
    function Components(): Dir {
      parent + [name]
    }
  }

  const Separator: char := '/'

  /** A name a directory listing can hold: not empty, not ".", free of separators. */
  predicate ValidName(n: Name) {
    n != "" && n != "." && Separator !in n
  }

  predicate ValidDir(d: Dir) {
    forall i :: 0 <= i < |d| ==> ValidName(d[i])
  }

  predicate ValidPath(p: Path) {
    ValidDir(p.parent) && ValidName(p.name)
  }

  /** `d1` is `d2` or one of its ancestors (what `relative_to` accepts). */
  predicate IsPrefix(d1: Dir, d2: Dir) {
    |d1| <= |d2| && d2[..|d1|] == d1
  }

  // ---------------------------------------------------------------------
  // Text form of a path: what `str(path)` writes and `Path(text)` reads
  // ---------------------------------------------------------------------

  /** The text of an absolute directory: a separator before every name. */
  function DirText(d: Dir): string {
    if d == [] then "" else [Separator] + d[0] + DirText(d[1..])
  }

  /** `str(p)` for an absolute path `p`. */
  function Text(p: Path): string {
    DirText(p.Components())
  }

  /** The pieces of `s` between separators (`s.split("/")`). */
  function Pieces(s: string): (ps: seq<string>)
    ensures |ps| >= 1
  {
    if s == [] then [""]
    else if s[0] == Separator then [""] + Pieces(s[1..])
    else
      var rest := Pieces(s[1..]);
      [[s[0]] + rest[0]] + rest[1..]
  }

  /** `pathlib` drops empty pieces and "." when it parses a path. */
  function Normalize(ps: seq<string>): seq<Name> {
    if ps == [] then []
    else (if ps[0] == "" || ps[0] == "." then [] else [ps[0]]) + Normalize(ps[1..])
  }

  /**
   * `Path(s)` for the text of an absolute path. Texts that are relative or
   * that name no entry at all (the root itself) give None.
   */
  function ParseText(s: string): (r: Option<Path>)
    ensures r.Some? ==> |s| > 0 && s[0] == Separator
  {
    if |s| == 0 || s[0] != Separator then None
    else
      var cs := Normalize(Pieces(s));
      if cs == [] then None else Some(Path(cs[..|cs| - 1], cs[|cs| - 1]))
  }

  lemma {:induction false} PiecesOfNamePrefix(n: Name, t: string)
    requires Separator !in n
    ensures Pieces(n + t) == [n + Pieces(t)[0]] + Pieces(t)[1..]
    decreases |n|
  {
    if n != [] {
      assert (n + t)[1..] == n[1..] + t;
      PiecesOfNamePrefix(n[1..], t);
      assert [n[0]] + (n[1..] + Pieces(t)[0]) == n + Pieces(t)[0];
    } else {
      var ps := Pieces(t);
      assert n + t == t && n + ps[0] == ps[0];
      assert [ps[0]] + ps[1..] == ps;
    }
  }

  lemma {:induction false} PiecesOfDirText(d: Dir)
    requires ValidDir(d)
    ensures Pieces(DirText(d)) == [""] + d
    decreases |d|
  {
    if d != [] {
      var rest := DirText(d[1..]);
      assert ValidDir(d[1..]) by {
        forall i | 0 <= i < |d[1..]| ensures ValidName(d[1..][i]) {
          assert d[1..][i] == d[i + 1];
        }
      }
      PiecesOfDirText(d[1..]);
      assert ValidName(d[0]);
      PiecesOfNamePrefix(d[0], rest);
      assert DirText(d) == [Separator] + (d[0] + rest);
      assert DirText(d)[1..] == d[0] + rest;
      assert Pieces(d[0] + rest) == [d[0] + ""] + d[1..];
      assert d[0] + "" == d[0];
      assert [d[0]] + d[1..] == d;
    }
  }

  lemma {:induction false} NormalizeValid(d: Dir)
    requires ValidDir(d)
    ensures Normalize(d) == d
    ensures Normalize([""] + d) == d
    decreases |d|
  {
    assert ([""] + d)[1..] == d;
    if d != [] {
      assert ValidDir(d[1..]) by {
        forall i | 0 <= i < |d[1..]| ensures ValidName(d[1..][i]) {
          assert d[1..][i] == d[i + 1];
        }
      }
      NormalizeValid(d[1..]);
      assert ValidName(d[0]);
      assert [d[0]] + d[1..] == d;
    }
  }

  /** Reading back the text `str(p)` of a path gives the path again. */
  lemma TextRoundTrip(p: Path)
    requires ValidPath(p)
    ensures ParseText(Text(p)) == Some(p)
  {
    var cs := p.Components();
    assert ValidDir(cs) by {
      forall i | 0 <= i < |cs| ensures ValidName(cs[i]) {
        if i < |p.parent| { assert cs[i] == p.parent[i]; } else { assert cs[i] == p.name; }
      }
    }
    PiecesOfDirText(cs);
    NormalizeValid(cs);
    assert cs[..|cs| - 1] == p.parent;
  }

  // ---------------------------------------------------------------------
  // Suffix and stem of a name, and lower-casing
  // ---------------------------------------------------------------------

  /** `s.rfind(".")`: the index of the last dot of `s`, or -1. */
  function LastDot(s: string): (i: int)
    ensures -1 <= i < |s|
    ensures 0 <= i ==> s[i] == '.'
    ensures forall j :: i < j < |s| ==> s[j] != '.'
  {
    if s == [] then -1
    else if s[|s| - 1] == '.' then |s| - 1
    else LastDot(s[..|s| - 1])
  }

  /** A dot counts as the start of the suffix unless it begins or ends the name. */
  predicate HasSuffix(n: Name) {
    0 < LastDot(n) < |n| - 1
  }

  /** `Path(n).suffix`: from the last dot on, or "" when there is none. */
  function Suffix(n: Name): string {
    if HasSuffix(n) then n[LastDot(n)..] else ""
  }

  /** `Path(n).stem`: the name without its suffix. */
  function Stem(n: Name): string {
    if HasSuffix(n) then n[..LastDot(n)] else n
  }

  /** The suffix and stem of a name whose last dot is at `i`, neither first nor last. */
  lemma SuffixAt(n: Name, i: nat)
    requires 0 < i < |n| - 1 && n[i] == '.'
    requires forall j :: i < j < |n| ==> n[j] != '.'
    ensures Suffix(n) == n[i..] && Stem(n) == n[..i]
  {
  }

  /** Stem and suffix split the name; a suffix is a dot and at least one more character, with no further dot. */
  lemma StemSuffixSplit(n: Name)
    ensures Stem(n) + Suffix(n) == n
    ensures Suffix(n) == "" || (|Suffix(n)| >= 2 && Suffix(n)[0] == '.' && '.' !in Suffix(n)[1..])
    ensures n != "" ==> Stem(n) != ""
  {
    if HasSuffix(n) {
      var i := LastDot(n);
      assert n[..i] + n[i..] == n;
      forall j | 0 <= j < |Suffix(n)[1..]| ensures Suffix(n)[1..][j] != '.' {
        assert Suffix(n)[1..][j] == n[i + 1 + j];
      }
    }
  }

  function LowerChar(c: char): char {
    if 'A' <= c <= 'Z' then (c as int + 32) as char else c
  }

  /** `s.lower()` on ASCII letters. */
  function Lower(s: string): string {
    if s == [] then [] else [LowerChar(s[0])] + Lower(s[1..])
  }
}
