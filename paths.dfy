/**
 * Filesystem paths as the corpus builder sees them: a path is the list of its
 * '/'-separated parts, paths are ordered the way `pathlib` orders POSIX paths
 * (its parts compared as lists of strings, strings by code point), and a list
 * of paths is sorted by that order.
 */
module Paths {

  /** A path as its parts: `a/b/c.jpg` is ["a", "b", "c.jpg"]. */
  type Path = seq<string>

  /** Python's `<` on `str`: code point by code point, a proper prefix first. */
  predicate StrLt(a: string, b: string)
    decreases |a|
  {
    if |a| == 0 then |b| > 0
    else if |b| == 0 then false
    else if a[0] != b[0] then a[0] < b[0]
    else StrLt(a[1..], b[1..])
  }

  /** Python's `<` on lists of strings, which is `<` on `PurePosixPath`. */
  predicate PathLt(a: Path, b: Path)
    decreases |a|
  {
    if |a| == 0 then |b| > 0
    else if |b| == 0 then false
    else if a[0] != b[0] then StrLt(a[0], b[0])
    else PathLt(a[1..], b[1..])
  }

  predicate PathLe(a: Path, b: Path) {
    a == b || PathLt(a, b)
  }

  lemma {:induction false} StrLtIrreflexive(a: string)
    ensures !StrLt(a, a)
    decreases |a|
  {
    if |a| > 0 {
      StrLtIrreflexive(a[1..]);
    }
  }

  lemma {:induction false} StrLtTransitive(a: string, b: string, c: string)
    requires StrLt(a, b) && StrLt(b, c)
    ensures StrLt(a, c)
    decreases |a|
  {
    if |a| > 0 && a[0] == b[0] && b[0] == c[0] {
      StrLtTransitive(a[1..], b[1..], c[1..]);
    }
  }

  lemma {:induction false} StrLtTotal(a: string, b: string)
    requires a != b
    ensures StrLt(a, b) || StrLt(b, a)
    decreases |a|
  {
    if |a| > 0 && |b| > 0 && a[0] == b[0] {
      assert a == [a[0]] + a[1..] && b == [b[0]] + b[1..];
      StrLtTotal(a[1..], b[1..]);
    }
  }

  lemma {:induction false} PathLtIrreflexive(a: Path)
    ensures !PathLt(a, a)
    decreases |a|
  {
    if |a| > 0 {
      PathLtIrreflexive(a[1..]);
    }
  }

  lemma {:induction false} PathLtTransitive(a: Path, b: Path, c: Path)
    requires PathLt(a, b) && PathLt(b, c)
    ensures PathLt(a, c)
    decreases |a|
  {
    if |a| > 0 && |b| > 0 && |c| > 0 {
      if a[0] == b[0] && b[0] == c[0] {
        PathLtTransitive(a[1..], b[1..], c[1..]);
      } else if a[0] != b[0] && b[0] != c[0] {
        StrLtTransitive(a[0], b[0], c[0]);
        if a[0] == c[0] {
          StrLtIrreflexive(a[0]);
          StrLtTransitive(a[0], b[0], a[0]);
        }
      }
    }
  }

  lemma {:induction false} PathLtTotal(a: Path, b: Path)
    requires a != b
    ensures PathLt(a, b) || PathLt(b, a)
    decreases |a|
  {
    if |a| > 0 && |b| > 0 {
      if a[0] == b[0] {
        assert a == [a[0]] + a[1..] && b == [b[0]] + b[1..];
        PathLtTotal(a[1..], b[1..]);
      } else {
        StrLtTotal(a[0], b[0]);
      }
    }
  }

  lemma PathLeAntisymmetric(a: Path, b: Path)
    requires PathLe(a, b) && PathLe(b, a)
    ensures a == b
  {
    if a != b {
      PathLtTransitive(a, b, a);
      PathLtIrreflexive(a);
    }
  }

  lemma PathLeTransitive(a: Path, b: Path, c: Path)
    requires PathLe(a, b) && PathLe(b, c)
    ensures PathLe(a, c)
  {
    if a != b && b != c {
      PathLtTransitive(a, b, c);
    }
  }

  /** `list.sort()`'s promise: ascending in `pathlib` order. */
  predicate Sorted(s: seq<Path>) {
    forall i, j :: 0 <= i < j < |s| ==> PathLe(s[i], s[j])
  }

  /** `x` put into a sorted list at its place. */
  function InsertSorted(x: Path, s: seq<Path>): (r: seq<Path>)
    requires Sorted(s)
    ensures Sorted(r)
    ensures multiset(r) == multiset{x} + multiset(s)
    decreases |s|
  {
    if |s| == 0 then [x]
    else if PathLe(x, s[0]) then
      BelowHead(x, s);
      SortedCons(x, s);
      [x] + s
    else
      var rest := InsertSorted(x, s[1..]);
      PathLtTotal(x, s[0]);
      HeadBelowRest(s, x, rest);
      SortedCons(s[0], rest);
      assert s == [s[0]] + s[1..];
      [s[0]] + rest
  }

  /** A path at or below the head of a sorted list is at or below all of it. */
  lemma BelowHead(x: Path, s: seq<Path>)
    requires Sorted(s) && |s| > 0 && PathLe(x, s[0])
    ensures forall j :: 0 <= j < |s| ==> PathLe(x, s[j])
  {
    forall j | 0 <= j < |s| ensures PathLe(x, s[j]) {
      PathLeTransitive(x, s[0], s[j]);
    }
  }

  /** A path at or below every element of a sorted list may go in front of it. */
  lemma SortedCons(y: Path, s: seq<Path>)
    requires Sorted(s) && forall j :: 0 <= j < |s| ==> PathLe(y, s[j])
    ensures Sorted([y] + s)
  {
  }

  /** The head of a sorted list is at or below `x` and the tail, so at or below any list of those. */
  lemma HeadBelowRest(s: seq<Path>, x: Path, rest: seq<Path>)
    requires Sorted(s) && |s| > 0 && PathLe(s[0], x)
    requires multiset(rest) == multiset{x} + multiset(s[1..])
    ensures forall j :: 0 <= j < |rest| ==> PathLe(s[0], rest[j])
  {
    forall j | 0 <= j < |rest| ensures PathLe(s[0], rest[j]) {
      var y := rest[j];
      assert y in multiset(rest);
      if y != x {
        assert y in multiset(s[1..]);
        var k :| 0 <= k < |s[1..]| && s[1..][k] == y;
        assert s[k + 1] == y;
      }
    }
  }

  /** `list.sort()` on paths: an insertion sort in `pathlib` order. */
  function SortPaths(s: seq<Path>): (r: seq<Path>)
    ensures Sorted(r)
    ensures multiset(r) == multiset(s)
  {
    if |s| == 0 then []
    else
      assert s == [s[0]] + s[1..];
      InsertSorted(s[0], SortPaths(s[1..]))
  }

  /**
   * Two sorted lists with the same elements are the same list: the order in
   * which paths were collected before sorting does not show in the result.
   */
  lemma {:induction false} SortedUnique(a: seq<Path>, b: seq<Path>)
    requires Sorted(a) && Sorted(b) && multiset(a) == multiset(b)
    ensures a == b
    decreases |a|
  {
    assert |a| == |multiset(a)| == |multiset(b)| == |b|;
    if |a| > 0 {
      SameHead(a, b);
      SameTail(a, b);
      SortedUnique(a[1..], b[1..]);
      assert a == [a[0]] + a[1..] && b == [b[0]] + b[1..];
    }
  }

  /** Two non-empty sorted lists with the same elements start alike. */
  lemma SameHead(a: seq<Path>, b: seq<Path>)
    requires Sorted(a) && Sorted(b) && multiset(a) == multiset(b) && |a| > 0 && |b| > 0
    ensures a[0] == b[0]
  {
    assert a[0] in multiset(b);
    assert b[0] in multiset(a);
    var k :| 0 <= k < |b| && b[k] == a[0];
    var l :| 0 <= l < |a| && a[l] == b[0];
    assert PathLe(b[0], a[0]) by { if k > 0 { assert PathLe(b[0], b[k]); } }
    assert PathLe(a[0], b[0]) by { if l > 0 { assert PathLe(a[0], a[l]); } }
    PathLeAntisymmetric(a[0], b[0]);
  }

  /** Lists with the same elements and the same head have tails with the same elements. */
  lemma SameTail(a: seq<Path>, b: seq<Path>)
    requires multiset(a) == multiset(b) && |a| > 0 && |b| > 0 && a[0] == b[0]
    ensures multiset(a[1..]) == multiset(b[1..])
  {
    assert a == [a[0]] + a[1..] && b == [b[0]] + b[1..];
    assert multiset(a[1..]) == multiset(a) - multiset{a[0]};
    assert multiset(b[1..]) == multiset(b) - multiset{a[0]};
  }

  /** Whether `prefix` is the first parts of `p`. */
  predicate StartsWith(p: Path, prefix: Path) {
    |prefix| <= |p| && p[..|prefix|] == prefix
  }

  /** The parts joined with '/', as `str()` prints a relative path ('.' for no parts). */
  function PathString(parts: Path): (s: string)
    ensures parts == [] ==> s == "."
    ensures |parts| == 1 ==> s == parts[0]
  {
    if |parts| == 0 then "." else Join(parts)
  }

  function Join(parts: Path): string
    requires |parts| > 0
  {
    if |parts| == 1 then parts[0] else parts[0] + "/" + Join(parts[1..])
  }
}
