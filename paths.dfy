/** The subset of `pathlib.Path` the pipeline uses: a path is the list of its
    `/`-separated components (an absolute path starts with the empty
    component), as Python 3.12 keeps them for comparison. */
module Paths {
  import opened Text

  datatype Path = Path(parts: seq<string>)

  /** `str(p)`. */
  function Str(p: Path): string {
    Join(p.parts, "/")
  }

  /** `p.name`: the last component. */
  function Name(p: Path): string {
    if |p.parts| == 0 then "" else p.parts[|p.parts| - 1]
  }

  /** `p.parent`. */
  function Parent(p: Path): Path {
    if |p.parts| == 0 then p else Path(p.parts[..|p.parts| - 1])
  }

  /** `p / name` for a single file name. */
  function Child(p: Path, name: string): Path {
    Path(p.parts + [name])
  }

  predicate IsAbsolute(p: Path) {
    |p.parts| > 0 && p.parts[0] == ""
  }

  /** `p.absolute()`, relative paths being resolved against `cwd`. */
  function Absolute(p: Path, cwd: Path): (r: Path)
    ensures IsAbsolute(cwd) ==> IsAbsolute(r)
    ensures IsAbsolute(p) ==> r == p
  {
    if IsAbsolute(p) then p else Path(cwd.parts + p.parts)
  }

  /** The index of the last `.` in `s`, or -1 (`s.rfind('.')`). */
  function LastDot(s: string): (i: int)
    ensures -1 <= i < |s|
    ensures i >= 0 ==> s[i] == '.'
    ensures forall j :: i < j < |s| ==> s[j] != '.'
    decreases |s|
  {
    if |s| == 0 then -1
    else if s[|s| - 1] == '.' then |s| - 1
    else LastDot(s[..|s| - 1])
  }

  /** `PurePath.stem` of a file name: the name without its last suffix, where a
      leading dot or a trailing dot does not start a suffix. */
  function Stem(name: string): (r: string)
    ensures |r| <= |name| && r == name[..|r|]
  {
    var i := LastDot(name);
    if 0 < i < |name| - 1 then name[..i] else name
  }

  /** Python's `<` on paths: list comparison of the components. */
  predicate PartsLess(a: seq<string>, b: seq<string>)
    decreases |a|
  {
    if |a| == 0 then |b| > 0
    else if |b| == 0 then false
    else StrLess(a[0], b[0]) || (a[0] == b[0] && PartsLess(a[1..], b[1..]))
  }

  predicate PathLess(p: Path, q: Path) {
    PartsLess(p.parts, q.parts)
  }

  lemma {:induction false} PartsLessIrreflexive(a: seq<string>)
    ensures !PartsLess(a, a)
    decreases |a|
  {
    if |a| > 0 {
      StrLessIrreflexive(a[0]);
      PartsLessIrreflexive(a[1..]);
    }
  }

  lemma {:induction false} PartsLessTransitive(a: seq<string>, b: seq<string>, c: seq<string>)
    requires PartsLess(a, b) && PartsLess(b, c)
    ensures PartsLess(a, c)
    decreases |a|
  {
    if |a| > 0 && |c| > 0 {
      if StrLess(a[0], b[0]) && StrLess(b[0], c[0]) {
        StrLessTransitive(a[0], b[0], c[0]);
      } else if a[0] == b[0] && b[0] == c[0] {
        PartsLessTransitive(a[1..], b[1..], c[1..]);
      }
    }
  }

  lemma {:induction false} PartsLessTotal(a: seq<string>, b: seq<string>)
    requires a != b
    ensures PartsLess(a, b) || PartsLess(b, a)
    decreases |a|
  {
    if |a| > 0 && |b| > 0 {
      if a[0] == b[0] {
        assert a == [a[0]] + a[1..] && b == [b[0]] + b[1..];
        PartsLessTotal(a[1..], b[1..]);
      } else {
        StrLessTotal(a[0], b[0]);
      }
    }
  }

  /** "`p <= q`": not greater. */
  predicate PathLe(p: Path, q: Path) {
    !PathLess(q, p)
  }

  lemma {:induction false} PartsLessAsymmetric(a: seq<string>, b: seq<string>)
    requires PartsLess(a, b)
    ensures !PartsLess(b, a)
  {
    if PartsLess(b, a) {
      PartsLessTransitive(a, b, a);
      PartsLessIrreflexive(a);
    }
  }

  lemma PathLeTransitive(p: Path, q: Path, r: Path)
    requires PathLe(p, q) && PathLe(q, r)
    ensures PathLe(p, r)
  {
    if p != q && q != r {
      PartsLessTotal(p.parts, q.parts);
      PartsLessTotal(q.parts, r.parts);
      PartsLessTransitive(p.parts, q.parts, r.parts);
      PartsLessAsymmetric(p.parts, r.parts);
    }
  }

  lemma PathLeTotal(p: Path, q: Path)
    ensures PathLe(p, q) || PathLe(q, p)
  {
    if p == q {
      PartsLessIrreflexive(p.parts);
    } else {
      PartsLessTotal(p.parts, q.parts);
      if PathLess(p, q) { PartsLessAsymmetric(p.parts, q.parts); }
    }
  }

  predicate Sorted(s: seq<Path>) {
    forall i, j :: 0 <= i < j < |s| ==> PathLe(s[i], s[j])
  }

  /** An element not greater than any of a sorted list can head it. */
  lemma SortedCons(h: Path, t: seq<Path>)
    requires Sorted(t)
    requires forall j :: 0 <= j < |t| ==> PathLe(h, t[j])
    ensures Sorted([h] + t)
  {
    var s := [h] + t;
    forall i, j | 0 <= i < j < |s| ensures PathLe(s[i], s[j]) {
      assert s[j] == t[j - 1];
      if i > 0 { assert s[i] == t[i - 1]; }
    }
  }

  /** Below the head of a sorted list is below all of it. */
  lemma BelowHead(x: Path, s: seq<Path>)
    requires Sorted(s) && |s| > 0 && PathLess(x, s[0])
    ensures forall j :: 0 <= j < |s| ==> PathLe(x, s[j])
  {
    PathLeTotal(x, s[0]);
    forall j | 0 <= j < |s| ensures PathLe(x, s[j]) {
      if j > 0 { PathLeTransitive(x, s[0], s[j]); }
    }
  }

  /** The head of a sorted list is not greater than the rest with `x`
      inserted, when `x` is not below it. */
  lemma HeadBelowInserted(x: Path, s: seq<Path>, rest: seq<Path>)
    requires Sorted(s) && |s| > 0 && !PathLess(x, s[0])
    requires multiset(rest) == multiset(s[1..]) + multiset{x}
    ensures forall j :: 0 <= j < |rest| ==> PathLe(s[0], rest[j])
  {
    forall j | 0 <= j < |rest| ensures PathLe(s[0], rest[j]) {
      assert rest[j] in multiset(rest);
      assert rest[j] == x || rest[j] in multiset(s[1..]);
      if rest[j] != x {
        var k :| 0 <= k < |s[1..]| && s[1..][k] == rest[j];
        assert s[k + 1] == rest[j];
      } else {
        PathLeTotal(x, s[0]);
      }
    }
  }

  /** Insert `x` into a sorted list, after every element not greater than it. */
  function Insert(x: Path, s: seq<Path>): (r: seq<Path>)
    requires Sorted(s)
    ensures Sorted(r)
    ensures multiset(r) == multiset(s) + multiset{x}
    decreases |s|
  {
    if s == [] then [x]
    else if PathLess(x, s[0]) then
      BelowHead(x, s);
      SortedCons(x, s);
      [x] + s
    else
      assert Sorted(s[1..]) by {
        forall i, j | 0 <= i < j < |s| - 1 ensures PathLe(s[1..][i], s[1..][j]) {
          assert s[1..][i] == s[i + 1] && s[1..][j] == s[j + 1];
        }
      }
      var rest := Insert(x, s[1..]);
      assert s == [s[0]] + s[1..];
      HeadBelowInserted(x, s, rest);
      SortedCons(s[0], rest);
      [s[0]] + rest
  }

  /** `sorted(ps)`. */
  function Sort(ps: seq<Path>): (r: seq<Path>)
    ensures Sorted(r)
    ensures multiset(r) == multiset(ps)
    decreases |ps|
  {
    if ps == [] then []
    else
      assert ps == [ps[0]] + ps[1..];
      Insert(ps[0], Sort(ps[1..]))
  }
}
