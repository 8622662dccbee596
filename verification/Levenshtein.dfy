/** The edit distance of matching/similarity.go: the two-row rolling loop, the
    recursive distance it refines, and what that distance means.

    Strings are sequences of runes (Go's `[]rune`). */
module Levenshtein {
  import Basics

  function Min(x: int, y: int): int { if x < y then x else y }

  function Max(x: int, y: int): int { if x < y then y else x }

  /** The recursive edit distance, by the last character of each string. */
  function Distance(a: string, b: string): nat
    decreases |a| + |b|
  {
    if a == [] then |b|
    else if b == [] then |a|
    else
      var a', b' := a[..|a| - 1], b[..|b| - 1];
      var cost := if a[|a| - 1] == b[|b| - 1] then 0 else 1;
      Min(Min(Distance(a', b) + 1, Distance(a, b') + 1), Distance(a', b') + cost)
  }

  // -------------------------------------------------------------------------
  // The rolling loop
  // -------------------------------------------------------------------------

  /** One cell of the table from its three neighbours. */
  lemma Cell(a: string, b: string, i: nat, j: nat)
    requires 1 <= i <= |a| && 1 <= j <= |b|
    ensures Distance(a[..i], b[..j])
         == Min(Min(Distance(a[..i - 1], b[..j]) + 1, Distance(a[..i], b[..j - 1]) + 1),
                Distance(a[..i - 1], b[..j - 1]) + if a[i - 1] == b[j - 1] then 0 else 1)
  {
    assert a[..i][..i - 1] == a[..i - 1];
    assert b[..j][..j - 1] == b[..j - 1];
  }

  /** The first `n` cells of row `i` of the table. */
  ghost predicate IsRow(row: seq<int>, a: string, b: string, i: nat, n: nat)
    requires i <= |a| && n <= |b| + 1
  {
    |row| == |b| + 1 && forall k :: 0 <= k < n ==> row[k] == Distance(a[..i], b[..k])
  }

  lemma ExtendRow(row: seq<int>, prev: seq<int>, a: string, b: string, i: nat, j: nat, m: int)
    requires 1 <= i <= |a| && 1 <= j <= |b|
    requires IsRow(prev, a, b, i - 1, |b| + 1) && IsRow(row, a, b, i, j)
    requires m == Min(Min(prev[j] + 1, row[j - 1] + 1), prev[j - 1] + if a[i - 1] == b[j - 1] then 0 else 1)
    ensures IsRow(row[j := m], a, b, i, j + 1)
  {
    Cell(a, b, i, j);
  }

  lemma FirstRow(row: seq<int>, a: string, b: string)
    requires |row| == |b| + 1 && forall k :: 0 <= k <= |b| ==> row[k] == k
    ensures IsRow(row, a, b, 0, |b| + 1)
  {
  }

  lemma FirstCell(row: seq<int>, a: string, b: string, i: nat)
    requires |row| == |b| + 1 && 1 <= i <= |a| && row[0] == i
    ensures IsRow(row, a, b, i, 1)
  {
  }

  lemma LastCell(row: seq<int>, a: string, b: string)
    requires IsRow(row, a, b, |a|, |b| + 1)
    ensures row[|b|] == Distance(a, b)
  {
    assert a[..|a|] == a && b[..|b|] == b;
  }

  /** One pass of the inner loop: the next row from the previous one. */
  method FillRow(s1: string, s2: string, i: nat, prev: array<int>, curr: array<int>)
    requires 1 <= i <= |s1| && prev != curr && prev.Length == curr.Length == |s2| + 1
    requires IsRow(prev[..], s1, s2, i - 1, |s2| + 1)
    modifies curr
    ensures IsRow(curr[..], s1, s2, i, |s2| + 1)
  {
    ghost var above := prev[..];
    curr[0] := i;
    FirstCell(curr[..], s1, s2, i);
    var j := 1;
    while j <= |s2|
      invariant 1 <= j <= |s2| + 1
      invariant prev[..] == above
      invariant IsRow(curr[..], s1, s2, i, j)
    {
      var cost := 1;
      if s1[i - 1] == s2[j - 1] { cost := 0; }
      var del := prev[j] + 1;
      var ins := curr[j - 1] + 1;
      var sub := prev[j - 1] + cost;
      var m := del;
      if ins < m { m := ins; }
      if sub < m { m := sub; }
      ExtendRow(curr[..], above, s1, s2, i, j, m);
      ghost var row := curr[..];
      curr[j] := m;
      assert curr[..] == row[j := m];
      j := j + 1;
    }
  }

  /** The two-row dynamic program, with the rows swapped after every pass. */
  method LevenshteinDistance(s1: string, s2: string) returns (d: nat)
    ensures d == Distance(s1, s2)
  {
    var l1, l2 := |s1|, |s2|;
    if l1 == 0 { return l2; }
    if l2 == 0 { return l1; }

    var prev := new int[l2 + 1];
    var curr := new int[l2 + 1];
    for j := 0 to l2 + 1
      invariant forall k :: 0 <= k < j ==> prev[k] == k
    {
      prev[j] := j;
    }
    FirstRow(prev[..], s1, s2);
    for i := 1 to l1 + 1
      invariant prev != curr && prev.Length == curr.Length == l2 + 1
      invariant fresh(prev) && fresh(curr)
      invariant IsRow(prev[..], s1, s2, i - 1, l2 + 1)
    {
      FillRow(s1, s2, i, prev, curr);
      prev, curr := curr, prev;
    }
    LastCell(prev[..], s1, s2);
    d := prev[l2];
  }

  // -------------------------------------------------------------------------
  // Bounds, symmetry, identity, triangle inequality
  // -------------------------------------------------------------------------

  /** The distance lies between the length difference and the longer length. */
  lemma {:induction false} DistanceBounds(a: string, b: string)
    ensures |a| - |b| <= Distance(a, b) && |b| - |a| <= Distance(a, b)
    ensures Distance(a, b) <= Max(|a|, |b|)
    decreases |a| + |b|
  {
    if a != [] && b != [] {
      var a', b' := a[..|a| - 1], b[..|b| - 1];
      DistanceBounds(a', b);
      DistanceBounds(a, b');
      DistanceBounds(a', b');
    }
  }

  lemma {:induction false} DistanceSymmetric(a: string, b: string)
    ensures Distance(a, b) == Distance(b, a)
    decreases |a| + |b|
  {
    if a != [] && b != [] {
      var a', b' := a[..|a| - 1], b[..|b| - 1];
      DistanceSymmetric(a', b);
      DistanceSymmetric(a, b');
      DistanceSymmetric(a', b');
    }
  }

  lemma {:induction false} DistanceZero(a: string, b: string)
    ensures Distance(a, b) == 0 <==> a == b
    decreases |a| + |b|
  {
    if a != [] && b != [] {
      var a', b' := a[..|a| - 1], b[..|b| - 1];
      DistanceZero(a', b');
      assert a == a' + [a[|a| - 1]] && b == b' + [b[|b| - 1]];
    }
  }

  lemma {:induction false} DistanceTriangle(a: string, b: string, c: string)
    ensures Distance(a, c) <= Distance(a, b) + Distance(b, c)
    decreases |a| + |b| + |c|
  {
    DistanceBounds(a, b);
    DistanceBounds(b, c);
    DistanceBounds(a, c);
    if a != [] && b != [] && c != [] {
      var a', b', c' := a[..|a| - 1], b[..|b| - 1], c[..|c| - 1];
      if Distance(a, b) == Distance(a', b) + 1 {
        DistanceTriangle(a', b, c);
      } else if Distance(b, c) == Distance(b, c') + 1 {
        DistanceTriangle(a, b, c');
      } else if Distance(a, b) == Distance(a, b') + 1 {
        if Distance(b, c) == Distance(b', c) + 1 {
          DistanceTriangle(a, b', c);
        } else {
          DistanceTriangle(a, b', c');
        }
      } else if Distance(b, c) == Distance(b', c) + 1 {
        DistanceTriangle(a', b', c);
      } else {
        DistanceTriangle(a', b', c');
      }
    }
  }

  // -------------------------------------------------------------------------
  // Edit scripts: the distance is the length of the shortest one
  // -------------------------------------------------------------------------

  /** One insertion, deletion or substitution, at any position: `p` is the
      common prefix, `x` and `y` hold at most one character, and the strings
      agree after it. */
  ghost predicate EditAt(a: string, b: string, p: nat, x: nat, y: nat)
  {
    && x <= 1 && y <= 1 && x + y >= 1
    && p + x <= |a| && p + y <= |b|
    && a[..p] == b[..p]
    && a[p + x..] == b[p + y..]
  }

  ghost predicate OneEdit(a: string, b: string)
  {
    exists p: nat, x: nat, y: nat :: EditAt(a, b, p, x, y)
  }

  /** `b` is reached from `a` by exactly `n` single edits, applied in any
      order and at any positions. */
  ghost predicate Edits(a: string, b: string, n: nat)
    decreases n
  {
    if n == 0 then a == b else exists m :: OneEdit(a, m) && Edits(m, b, n - 1)
  }

  /** A common last character costs nothing. */
  lemma DistanceSameLast(a: string, b: string, c: char)
    ensures Distance(a + [c], b + [c]) <= Distance(a, b)
  {
  }

  lemma {:induction false} DistanceSameSuffix(a: string, b: string, s: string, x: string, y: string)
    requires x == a + s && y == b + s
    ensures Distance(x, y) <= Distance(a, b)
    decreases |s|
  {
    if s == [] {
      assert x == a && y == b;
    } else {
      DistanceSameLast(a, b, s[0]);
      DistanceSameSuffix(a + [s[0]], b + [s[0]], s[1..], x, y);
    }
  }

  /** Appending at most one character on each side is one edit away. */
  lemma TailIsNear(l: string, r: string, p: string)
    requires |p| <= |l| <= |p| + 1 && |p| <= |r| <= |p| + 1 && l[..|p|] == p && r[..|p|] == p
    ensures Distance(l, r) <= 1
  {
    DistanceZero(p, p);
    DistanceZero(l, r);
    if |l| == |p| { assert l == p; } else { assert l[..|l| - 1] == p; }
    if |r| == |p| { assert r == p; } else { assert r[..|r| - 1] == p; }
  }

  lemma OneEditIsNear(a: string, b: string)
    requires OneEdit(a, b)
    ensures Distance(a, b) <= 1
  {
    var p: nat, x: nat, y: nat :| EditAt(a, b, p, x, y);
    var l, r, s := a[..p + x], b[..p + y], a[p + x..];
    assert a == l + s && b == r + s;
    assert l[..p] == a[..p] && r[..p] == b[..p];
    TailIsNear(l, r, a[..p]);
    DistanceSameSuffix(l, r, s, a, b);
  }

  /** No script is shorter than the distance. */
  lemma {:induction false} EditsAtLeastDistance(a: string, b: string, n: nat)
    requires Edits(a, b, n)
    ensures Distance(a, b) <= n
    decreases n
  {
    if n == 0 {
      DistanceZero(a, b);
    } else {
      var m :| OneEdit(a, m) && Edits(m, b, n - 1);
      OneEditIsNear(a, m);
      EditsAtLeastDistance(m, b, n - 1);
      DistanceTriangle(a, m, b);
    }
  }

  lemma {:induction false} EditsAppend(a: string, m: string, b: string, n: nat)
    requires Edits(a, m, n) && OneEdit(m, b)
    ensures Edits(a, b, n + 1)
    decreases n
  {
    if n == 0 {
      assert Edits(b, b, 0);
    } else {
      var k :| OneEdit(a, k) && Edits(k, m, n - 1);
      EditsAppend(k, m, b, n - 1);
    }
  }

  lemma OneEditSameLast(a: string, b: string, c: char)
    requires OneEdit(a, b)
    ensures OneEdit(a + [c], b + [c])
  {
    var p: nat, x: nat, y: nat :| EditAt(a, b, p, x, y);
    assert (a + [c])[p + x..] == a[p + x..] + [c];
    assert (b + [c])[p + y..] == b[p + y..] + [c];
    assert (a + [c])[..p] == a[..p] && (b + [c])[..p] == b[..p];
    assert EditAt(a + [c], b + [c], p, x, y);
  }

  lemma {:induction false} EditsSameLast(a: string, b: string, c: char, n: nat)
    requires Edits(a, b, n)
    ensures Edits(a + [c], b + [c], n)
    decreases n
  {
    if n > 0 {
      var m :| OneEdit(a, m) && Edits(m, b, n - 1);
      OneEditSameLast(a, m, c);
      EditsSameLast(m, b, c, n - 1);
    }
  }

  lemma EditsDeleteLast(a: string, b: string, n: nat)
    requires a != [] && Edits(a[..|a| - 1], b, n)
    ensures Edits(a, b, n + 1)
  {
    assert EditAt(a, a[..|a| - 1], |a| - 1, 1, 0);
    assert OneEdit(a, a[..|a| - 1]);
  }

  lemma EditsInsertLast(a: string, b: string, n: nat)
    requires b != [] && Edits(a, b[..|b| - 1], n)
    ensures Edits(a, b, n + 1)
  {
    assert EditAt(b[..|b| - 1], b, |b| - 1, 0, 1);
    EditsAppend(a, b[..|b| - 1], b, n);
  }

  lemma EditsReplaceLast(a: string, b: string, n: nat)
    requires a != [] && b != [] && Edits(a[..|a| - 1], b[..|b| - 1], n)
    ensures Edits(a, b, n + if a[|a| - 1] == b[|b| - 1] then 0 else 1)
  {
    var a', b', x, y := a[..|a| - 1], b[..|b| - 1], a[|a| - 1], b[|b| - 1];
    EditsSameLast(a', b', x, n);
    assert a == a' + [x] && b == b' + [y];
    if x != y {
      assert (b' + [x])[..|b'|] == b[..|b'|];
      assert EditAt(b' + [x], b, |b'|, 1, 1);
      EditsAppend(a, b' + [x], b, n);
    }
  }

  /** A shortest script for the strings from shortest ones for their prefixes. */
  lemma EditsByLast(a: string, b: string)
    requires a != [] && b != []
    requires var a', b' := a[..|a| - 1], b[..|b| - 1];
             Edits(a', b, Distance(a', b)) && Edits(a, b', Distance(a, b')) && Edits(a', b', Distance(a', b'))
    ensures Edits(a, b, Distance(a, b))
  {
    var a', b' := a[..|a| - 1], b[..|b| - 1];
    if Distance(a, b) == Distance(a', b) + 1 {
      EditsDeleteLast(a, b, Distance(a', b));
    } else if Distance(a, b) == Distance(a, b') + 1 {
      EditsInsertLast(a, b, Distance(a, b'));
    } else {
      EditsReplaceLast(a, b, Distance(a', b'));
    }
  }

  /** Some script is as short as the distance. */
  lemma {:induction false} EditsExist(a: string, b: string)
    ensures Edits(a, b, Distance(a, b))
    decreases |a| + |b|
  {
    if a == [] && b == [] {
    } else if b == [] {
      EditsExist(a[..|a| - 1], b);
      EditsDeleteLast(a, b, |a| - 1);
    } else if a == [] {
      EditsExist(a, b[..|b| - 1]);
      EditsInsertLast(a, b, |b| - 1);
    } else {
      EditsExist(a[..|a| - 1], b);
      EditsExist(a, b[..|b| - 1]);
      EditsExist(a[..|a| - 1], b[..|b| - 1]);
      EditsByLast(a, b);
    }
  }

  /** The distance is the least number of insertions, deletions and
      substitutions that turn one string into the other. */
  lemma DistanceIsLeastEdits(a: string, b: string)
    ensures Edits(a, b, Distance(a, b))
    ensures forall n: nat :: Edits(a, b, n) ==> Distance(a, b) <= n
  {
    EditsExist(a, b);
    forall n: nat | Edits(a, b, n) ensures Distance(a, b) <= n {
      EditsAtLeastDistance(a, b, n);
    }
  }

  // -------------------------------------------------------------------------
  // The normalised score
  // -------------------------------------------------------------------------

  /** One minus the distance as a share of the longer length. */
  function Score(a: string, b: string): real
  {
    if a == b then 1.0
    else 1.0 - Distance(a, b) as real / Max(|a|, |b|) as real
  }

  lemma ScoreProperties(a: string, b: string)
    ensures 0.0 <= Score(a, b) <= 1.0
    ensures Score(a, b) == 1.0 <==> a == b
    ensures Score(a, b) == Score(b, a)
    ensures Score(a, b) == 0.0 <==> a != b && Distance(a, b) == Max(|a|, |b|)
  {
    DistanceBounds(a, b);
    DistanceZero(a, b);
    DistanceSymmetric(a, b);
    if a != b {
      Basics.Ratio(Distance(a, b) as real, Max(|a|, |b|) as real);
    }
  }

  /** Each edit of a shortest script costs the share of one character of the
      longer string. */
  lemma ScoreValue(a: string, b: string, n: nat)
    requires Edits(a, b, n) && forall m: nat :: Edits(a, b, m) ==> n <= m
    ensures var l := if |a| < |b| then |b| else |a|;
            Score(a, b) == if l == 0 then 1.0 else 1.0 - n as real / l as real
  {
    LeastIsDistance(a, b, n);
    DistanceZero(a, b);
    if a == b && a != [] { Basics.Ratio(0.0, |a| as real); }
  }

  lemma LeastIsDistance(a: string, b: string, n: nat)
    requires Edits(a, b, n) && forall m: nat :: Edits(a, b, m) ==> n <= m
    ensures n == Distance(a, b)
  {
    DistanceIsLeastEdits(a, b);
  }

  method NormalizedLevenshtein(s1: string, s2: string) returns (r: real)
    ensures r == Score(s1, s2)
  {
    if s1 == s2 { return 1.0; }
    var maxLen := |s1|;
    if |s2| > maxLen { maxLen := |s2|; }
    if maxLen == 0 { return 1.0; }
    var dist := LevenshteinDistance(s1, s2);
    r := 1.0 - dist as real / maxLen as real;
  }
}
