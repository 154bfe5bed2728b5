/**
 * The naming scheme of the collision resolver: a taken destination
 * `parent/stem.suffix` is replaced by `parent/stem (i).suffix` for the
 * least i >= 1 whose candidate is free. The loop that searches for i is
 * `FileSystem.SafeUniqueDestination`; this module defines what it finds.
 */
module Resolver {

  import opened Paths

  function DigitChar(d: nat): char
    requires d < 10
  {
    (48 + d) as char
  }

  /** The number a text of decimal digits denotes, most significant digit first. */
  function DigitsValue(s: string): nat
    requires forall k :: 0 <= k < |s| ==> '0' <= s[k] <= '9'
  {
    if s == [] then 0 else DigitsValue(s[..|s| - 1]) * 10 + (s[|s| - 1] as int - 48)
  }

  /** `str(i)` for a natural number: its decimal digits, most significant first. */
  function Decimal(i: nat): (s: string)
    ensures 1 <= |s|
    ensures i >= 10 ==> |s| >= 2
    ensures forall k :: 0 <= k < |s| ==> '0' <= s[k] <= '9'
    ensures DigitsValue(s) == i
    ensures i > 0 ==> s[0] != '0'
    ensures |s| > 1 ==> s[0] != '0'
  {
    if i < 10 then [DigitChar(i)]
    else
      var t := Decimal(i / 10) + [DigitChar(i % 10)];
      assert t[..|t| - 1] == Decimal(i / 10);
      t
  }

  /** Different numbers have different decimal texts: each text denotes its number. */
  lemma DecimalInjective(a: nat, b: nat)
    requires Decimal(a) == Decimal(b)
    ensures a == b
  {
  }

  /** The name tried at attempt `i`: `f"{stem} ({i}){suffix}"`. */
  function CandidateName(n: Name, i: nat): Name {
    Stem(n) + " (" + Decimal(i) + ")" + Suffix(n)
  }

  /** The path tried at attempt `i`, next to the desired one. */
  function Candidate(dest: Path, i: nat): Path {
    Path(dest.parent, CandidateName(dest.name, i))
  }

  /** Different attempts try different names, none of them the desired name. */
  lemma CandidateInjective(dest: Path, i: nat, j: nat)
    ensures Candidate(dest, i) == Candidate(dest, j) <==> i == j
    ensures Candidate(dest, i) != dest
  {
    var stem, suffix := Stem(dest.name), Suffix(dest.name);
    StemSuffixSplit(dest.name);
    var a, b := Decimal(i), Decimal(j);
    var ni, nj := CandidateName(dest.name, i), CandidateName(dest.name, j);
    assert |ni| == |dest.name| + |a| + 3;
    if ni == nj {
      assert |a| == |b|;
      NumberInBrackets(stem, a, suffix);
      NumberInBrackets(stem, b, suffix);
      DecimalInjective(i, j);
    }
  }

  /** The number of a candidate name sits right after the stem and ` (`. */
  lemma NumberInBrackets(stem: string, a: string, suffix: string)
    ensures (stem + " (" + a + ")" + suffix)[|stem| + 2..|stem| + 2 + |a|] == a
  {
    var n := stem + " (" + a + ")" + suffix;
    assert forall k :: 0 <= k < |a| ==> n[|stem| + 2 + k] == a[k];
  }

  /** A candidate is a name a directory listing can hold whenever the desired name is one. */
  lemma CandidateValid(dest: Path, i: nat)
    requires ValidPath(dest)
    ensures ValidPath(Candidate(dest, i))
  {
    var stem, suffix := Stem(dest.name), Suffix(dest.name);
    StemSuffixSplit(dest.name);
    var c := CandidateName(dest.name, i);
    assert Separator !in stem by {
      forall k | 0 <= k < |stem| ensures stem[k] != Separator {
        assert stem[k] == dest.name[k];
      }
    }
    assert Separator !in suffix by {
      forall k | 0 <= k < |suffix| ensures suffix[k] != Separator {
        assert suffix[k] == dest.name[|stem| + k];
      }
    }
    assert Separator !in c by {
      forall k | 0 <= k < |c| ensures c[k] != Separator {
        if k < |stem| {
          assert c[k] == stem[k];
        } else if k < |stem| + 2 + |Decimal(i)| + 1 {
        } else {
          assert c[k] == suffix[k - |stem| - 3 - |Decimal(i)|];
        }
      }
    }
    assert |c| >= 4;
  }

  /** The first `i` candidates, as a set. */
  function CandidatesUpTo(dest: Path, i: nat): set<Path> {
    set j | 1 <= j <= i :: Candidate(dest, j)
  }

  lemma {:induction false} CandidatesUpToSize(dest: Path, i: nat)
    ensures |CandidatesUpTo(dest, i)| == i
  {
    if i > 0 {
      CandidatesUpToSize(dest, i - 1);
      assert CandidatesUpTo(dest, i) == CandidatesUpTo(dest, i - 1) + {Candidate(dest, i)};
      if Candidate(dest, i) in CandidatesUpTo(dest, i - 1) {
        var j :| 1 <= j <= i - 1 && Candidate(dest, j) == Candidate(dest, i);
        CandidateInjective(dest, i, j);
      }
    }
  }

  /**
   * The search ends: on a filesystem with `|taken|` entries, at most
   * `|taken|` candidates in a row can be taken.
   */
  lemma CandidatesTakenBound(taken: set<Path>, dest: Path, i: nat)
    requires forall j :: 1 <= j <= i ==> Candidate(dest, j) in taken
    ensures i <= |taken|
  {
    var tried := CandidatesUpTo(dest, i);
    CandidatesUpToSize(dest, i);
    assert taken == tried + (taken - tried);
    assert tried * (taken - tried) == {};
  }

  /** The least attempt from `i` on whose candidate is free. */
  function FirstFreeFrom(taken: set<Path>, dest: Path, i: nat): (k: nat)
    requires 1 <= i
    requires forall j :: 1 <= j < i ==> Candidate(dest, j) in taken
    ensures i <= k && Candidate(dest, k) !in taken
    ensures forall j :: 1 <= j < k ==> Candidate(dest, j) in taken
    decreases |taken| + 1 - i
  {
    if Candidate(dest, i) !in taken then i
    else
      CandidatesTakenBound(taken, dest, i);
      FirstFreeFrom(taken, dest, i + 1)
  }

  /**
   * `safe_unique_destination(dest)` against the entries `taken`: the desired
   * path when it is free, otherwise the first free candidate. The result is
   * never taken and sits in the same directory.
   */
  function UniqueDestination(taken: set<Path>, dest: Path): (r: Path)
    ensures r !in taken
    ensures r.parent == dest.parent
    ensures dest !in taken ==> r == dest
    ensures dest in taken ==>
      exists k :: 1 <= k && r == Candidate(dest, k) && (forall j :: 1 <= j < k ==> Candidate(dest, j) in taken)
  {
    if dest !in taken then dest else Candidate(dest, FirstFreeFrom(taken, dest, 1))
  }

  /** The result of the resolver is a valid path whenever the desired one is. */
  lemma UniqueDestinationValid(taken: set<Path>, dest: Path)
    requires ValidPath(dest)
    ensures ValidPath(UniqueDestination(taken, dest))
  {
    if dest in taken {
      CandidateValid(dest, FirstFreeFrom(taken, dest, 1));
    }
  }

  /** Only the desired path and its candidates decide the result: other entries can come and go. */
  lemma UniqueDestinationLocal(taken1: set<Path>, taken2: set<Path>, dest: Path)
    requires dest in taken1 <==> dest in taken2
    requires forall i :: 1 <= i ==> (Candidate(dest, i) in taken1 <==> Candidate(dest, i) in taken2)
    ensures UniqueDestination(taken1, dest) == UniqueDestination(taken2, dest)
  {
    if dest in taken1 {
      var k1 := FirstFreeFrom(taken1, dest, 1);
      var k2 := FirstFreeFrom(taken2, dest, 1);
      assert Candidate(dest, k1) !in taken2;
      assert Candidate(dest, k2) !in taken1;
    }
  }

  /** The first candidate for `photo.png` is `photo (1).png`. */
  lemma FirstCandidateExample()
    ensures CandidateName("photo.png", 1) == "photo (1).png"
  {
    SuffixAt("photo.png", 5);
  }
}
