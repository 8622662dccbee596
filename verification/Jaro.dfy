/** The Jaro and Jaro-Winkler similarities of matching/similarity.go.

    The greedy windowed scan is studied through the pairing it builds, a map
    from matched positions of the first string to matched positions of the
    second.  Scores are exact reals and strings are sequences of runes. */
module Jaro {
  import Basics

  /** Half the longer length less one, and at least zero. */
  function Window(a: string, b: string): nat
  {
    var half := (if |a| > |b| then |a| else |b|) / 2;
    if half == 0 then 0 else half - 1
  }

  /** Equal characters no further apart than the window. */
  predicate Compatible(a: string, b: string, i: nat, j: nat)
  {
    i < |a| && j < |b| && a[i] == b[j] && i - Window(a, b) <= j <= i + Window(a, b)
  }

  /** A one-to-one pairing of compatible positions. */
  ghost predicate IsPairing(a: string, b: string, p: map<nat, nat>)
  {
    && (forall i :: i in p ==> Compatible(a, b, i, p[i]))
    && (forall i, k :: i in p && k in p && p[i] == p[k] ==> i == k)
  }

  // -------------------------------------------------------------------------
  // The greedy scan
  // -------------------------------------------------------------------------

  predicate Free(a: string, b: string, i: nat, taken: set<nat>, j: nat)
  {
    j !in taken && Compatible(a, b, i, j)
  }

  /** The first free position of `b` at or after `j`, or |b|. */
  function FirstFree(a: string, b: string, i: nat, taken: set<nat>, j: nat): (k: nat)
    requires j <= |b|
    ensures j <= k <= |b|
    ensures k < |b| ==> Free(a, b, i, taken, k)
    ensures forall l :: j <= l < k ==> !Free(a, b, i, taken, l)
    decreases |b| - j
  {
    if j == |b| || Free(a, b, i, taken, j) then j else FirstFree(a, b, i, taken, j + 1)
  }

  /** The scan from row `i` on, with `p` the pairs made so far. */
  ghost function Greedy(a: string, b: string, i: nat, p: map<nat, nat>): map<nat, nat>
    requires i <= |a|
    decreases |a| - i
  {
    if i == |a| then p
    else
      var j := FirstFree(a, b, i, p.Values, 0);
      Greedy(a, b, i + 1, if j < |b| then p[i := j] else p)
  }

  ghost function Matching(a: string, b: string): map<nat, nat>
  {
    Greedy(a, b, 0, map[])
  }

  // -------------------------------------------------------------------------
  // The greedy pairing is the only settled one
  // -------------------------------------------------------------------------

  /** The pair (i, j) cannot improve on `p`: row `i` has a column at least as
      early, or column `j` belongs to an earlier row. */
  ghost predicate Settled(p: map<nat, nat>, i: nat, j: nat)
  {
    (i in p && p[i] <= j) || (exists k :: k in p && k < i && p[k] == j)
  }

  ghost predicate SettledTo(a: string, b: string, p: map<nat, nat>, n: nat)
  {
    && IsPairing(a, b, p)
    && (forall i :: i in p ==> i < n)
    && (forall i: nat, j: nat :: i < n && Compatible(a, b, i, j) ==> Settled(p, i, j))
  }

  ghost predicate Stable(a: string, b: string, p: map<nat, nat>)
  {
    SettledTo(a, b, p, |a|)
  }

  lemma SettleRow(a: string, b: string, i: nat, p: map<nat, nat>)
    requires i < |a| && SettledTo(a, b, p, i)
    ensures var j := FirstFree(a, b, i, p.Values, 0);
            SettledTo(a, b, if j < |b| then p[i := j] else p, i + 1)
  {
    var j := FirstFree(a, b, i, p.Values, 0);
    var q := if j < |b| then p[i := j] else p;
    assert forall k :: k in p ==> p[k] in p.Values && k in q && q[k] == p[k];
    forall r: nat, c: nat | r < i + 1 && Compatible(a, b, r, c) ensures Settled(q, r, c) {
      if r < i {
        assert Settled(p, r, c);
      } else if c < j {
        assert !Free(a, b, i, p.Values, c);
        assert c in p.Values;
      }
    }
  }

  lemma {:induction false} GreedySettles(a: string, b: string, i: nat, p: map<nat, nat>)
    requires i <= |a| && SettledTo(a, b, p, i)
    ensures Stable(a, b, Greedy(a, b, i, p))
    decreases |a| - i
  {
    if i < |a| {
      SettleRow(a, b, i, p);
      var j := FirstFree(a, b, i, p.Values, 0);
      GreedySettles(a, b, i + 1, if j < |b| then p[i := j] else p);
    }
  }

  lemma MatchingStable(a: string, b: string)
    ensures Stable(a, b, Matching(a, b))
  {
    GreedySettles(a, b, 0, map[]);
  }

  /** Pairs of `p` whose positions sum below `n` are pairs of `q`. */
  ghost predicate AgreeBelow(p: map<nat, nat>, q: map<nat, nat>, n: nat)
  {
    forall i :: i in p && i + p[i] < n ==> i in q && q[i] == p[i]
  }

  lemma AgreeAt(a: string, b: string, p: map<nat, nat>, q: map<nat, nat>, n: nat, i: nat)
    requires Stable(a, b, p) && Stable(a, b, q) && AgreeBelow(q, p, n)
    requires i in p && i + p[i] == n
    ensures i in q && q[i] == p[i]
  {
    assert Settled(q, i, p[i]);
  }

  /** Two stable pairings agree on every pair whose positions sum below `n`. */
  lemma {:induction false} StableAgree(a: string, b: string, p: map<nat, nat>, q: map<nat, nat>, n: nat)
    requires Stable(a, b, p) && Stable(a, b, q)
    ensures AgreeBelow(p, q, n) && AgreeBelow(q, p, n)
    decreases n
  {
    if n > 0 {
      StableAgree(a, b, p, q, n - 1);
      forall i | i in p && i + p[i] == n - 1 ensures i in q && q[i] == p[i] {
        AgreeAt(a, b, p, q, n - 1, i);
      }
      forall i | i in q && i + q[i] == n - 1 ensures i in p && p[i] == q[i] {
        AgreeAt(a, b, q, p, n - 1, i);
      }
    }
  }

  lemma StableUnique(a: string, b: string, p: map<nat, nat>, q: map<nat, nat>)
    requires Stable(a, b, p) && Stable(a, b, q)
    ensures p == q
  {
    StableAgree(a, b, p, q, |a| + |b|);
    assert forall i :: i in p ==> i in q && q[i] == p[i];
    assert forall i :: i in q ==> i in p;
  }

  // -------------------------------------------------------------------------
  // Swapping the strings inverts the pairing
  // -------------------------------------------------------------------------

  ghost function Inverse(p: map<nat, nat>): map<nat, nat>
  {
    map j | j in p.Values :: var i :| i in p && p[i] == j; i
  }

  lemma InverseOf(a: string, b: string, p: map<nat, nat>)
    requires IsPairing(a, b, p)
    ensures forall i :: i in p ==> p[i] in Inverse(p) && Inverse(p)[p[i]] == i
    ensures forall j :: j in Inverse(p) ==> Inverse(p)[j] in p && p[Inverse(p)[j]] == j
    ensures Inverse(p).Keys == p.Values && Inverse(p).Values == p.Keys
  {
    var v := Inverse(p);
    forall i | i in p ensures p[i] in v && v[p[i]] == i {
      assert p[i] in p.Values;
    }
    assert forall i :: i in p.Keys ==> p[i] in v && v[p[i]] in v.Values;
    assert forall i :: i in v.Values ==> i in p.Keys;
  }

  lemma InverseStable(a: string, b: string, p: map<nat, nat>)
    requires Stable(a, b, p)
    ensures Stable(b, a, Inverse(p))
  {
    InverseOf(a, b, p);
    var v := Inverse(p);
    forall j: nat, i: nat | j < |b| && Compatible(b, a, j, i) ensures Settled(v, j, i) {
      assert Compatible(a, b, i, j);
      assert Settled(p, i, j);
      if i in p && p[i] < j {
        assert p[i] in v && v[p[i]] == i;
      } else if i in p && p[i] == j {
        assert v[j] == i;
      } else {
        var k :| k in p && k < i && p[k] == j;
        assert v[j] == k;
      }
    }
  }

  lemma MatchingSwap(a: string, b: string)
    ensures Matching(b, a) == Inverse(Matching(a, b))
  {
    MatchingStable(a, b);
    MatchingStable(b, a);
    InverseStable(a, b, Matching(a, b));
    StableUnique(b, a, Matching(b, a), Inverse(Matching(a, b)));
  }

  // -------------------------------------------------------------------------
  // No pairing is larger
  // -------------------------------------------------------------------------

  lemma DropRow(a: string, b: string, q: map<nat, nat>, k: nat)
    requires IsPairing(a, b, q)
    ensures var r := q - {k};
            && IsPairing(a, b, r) && r.Keys == q.Keys - {k} && r.Values <= q.Values
            && |r| >= |q| - 1 && (k in q ==> q[k] !in r.Values)
  {
  }

  /** Row `k` gives up its column for the later one of row `i`. */
  lemma Redirect(a: string, b: string, q: map<nat, nat>, i: nat, k: nat) returns (r: map<nat, nat>)
    requires IsPairing(a, b, q) && i in q && k in q && i < k && q[k] < q[i]
    requires a[i] == a[k]
    ensures IsPairing(a, b, r) && r.Keys == q.Keys - {i} && r.Values <= q.Values
    ensures |r| >= |q| - 1 && q[k] !in r.Values
  {
    r := map l | l in q.Keys - {i} :: if l == k then q[i] else q[l];
    assert r.Keys == q.Keys - {i};
    assert |r.Keys| == |q.Keys| - 1;
    assert Compatible(a, b, i, q[i]) && Compatible(a, b, k, q[k]);
    forall l | l in r ensures Compatible(a, b, l, r[l]) && r[l] in q.Values && r[l] != q[k] {
      assert l in q;
    }
  }

  /** What is left of a rival pairing once row `i` takes column `j`. */
  lemma Exchange(a: string, b: string, i: nat, j: nat, q: map<nat, nat>) returns (r: map<nat, nat>)
    requires IsPairing(a, b, q) && (forall k :: k in q ==> i <= k)
    requires Compatible(a, b, i, j) && (i in q ==> j <= q[i])
    ensures IsPairing(a, b, r) && (forall k :: k in r ==> i < k)
    ensures j !in r.Values && r.Values <= q.Values && |r| >= |q| - 1
  {
    if k :| k in q && k != i && q[k] == j {
      assert Compatible(a, b, k, j);
      if i in q {
        assert q[i] != q[k];
        r := Redirect(a, b, q, i, k);
      } else {
        DropRow(a, b, q, k);
        r := q - {k};
      }
    } else {
      DropRow(a, b, q, i);
      r := q - {i};
      assert forall l :: l in r ==> l in q && r[l] != j;
    }
  }

  lemma TakeColumn(p: map<nat, nat>, i: nat, j: nat)
    requires i !in p
    ensures |p[i := j]| == |p| + 1 && p[i := j].Values <= p.Values + {j}
  {
  }

  lemma FirstFreeBound(a: string, b: string, i: nat, taken: set<nat>, j: nat)
    requires Free(a, b, i, taken, j)
    ensures FirstFree(a, b, i, taken, 0) <= j
  {
  }

  /** `q` pairs rows from `i` on with columns `p` has not taken. */
  ghost predicate Rival(a: string, b: string, i: nat, p: map<nat, nat>, q: map<nat, nat>)
  {
    && (forall k :: k in p ==> k < i)
    && IsPairing(a, b, q)
    && (forall k :: k in q ==> i <= k && q[k] !in p.Values)
  }

  lemma RivalTaken(a: string, b: string, i: nat, p: map<nat, nat>, j: nat, q: map<nat, nat>, r: map<nat, nat>)
    requires Rival(a, b, i, p, q) && IsPairing(a, b, r) && (forall k :: k in r ==> i < k)
    requires j !in r.Values && r.Values <= q.Values
    ensures Rival(a, b, i + 1, p[i := j], r)
  {
    forall k | k in r ensures r[k] !in p[i := j].Values {
      assert r[k] in r.Values;
      assert r[k] in q.Values;
    }
  }

  lemma RivalStep(a: string, b: string, i: nat, p: map<nat, nat>, q: map<nat, nat>) returns (r: map<nat, nat>)
    requires i < |a| && Rival(a, b, i, p, q)
    ensures var j := FirstFree(a, b, i, p.Values, 0);
            var p' := if j < |b| then p[i := j] else p;
            Rival(a, b, i + 1, p', r) && |p'| + |r| >= |p| + |q|
  {
    var j := FirstFree(a, b, i, p.Values, 0);
    if i in q { FirstFreeBound(a, b, i, p.Values, q[i]); }
    r := q;
    if j < |b| {
      r := Exchange(a, b, i, j, q);
      TakeColumn(p, i, j);
      RivalTaken(a, b, i, p, j, q, r);
    }
  }

  lemma {:induction false} GreedyBeats(a: string, b: string, i: nat, p: map<nat, nat>, q: map<nat, nat>)
    requires i <= |a| && Rival(a, b, i, p, q)
    ensures |p| + |q| <= |Greedy(a, b, i, p)|
    decreases |a| - i
  {
    if i == |a| {
      assert q.Keys == {};
    } else {
      var j := FirstFree(a, b, i, p.Values, 0);
      var r := RivalStep(a, b, i, p, q);
      GreedyBeats(a, b, i + 1, if j < |b| then p[i := j] else p, r);
    }
  }

  /** The greedy scan is a pairing, none is larger, and swapping the two
      strings gives one of the same size. */
  lemma MatchingIsMaximum(a: string, b: string)
    ensures IsPairing(a, b, Matching(a, b))
    ensures forall q :: IsPairing(a, b, q) ==> |q| <= |Matching(a, b)|
    ensures |Matching(b, a)| == |Matching(a, b)|
  {
    MatchingStable(a, b);
    MatchingStable(b, a);
    forall q | IsPairing(a, b, q) ensures |q| <= |Matching(a, b)| {
      GreedyBeats(a, b, 0, map[], q);
    }
    MatchingSwap(a, b);
    InverseOf(a, b, Matching(a, b));
    SameSize(a, b, Matching(a, b));
    assert |Matching(b, a)| == |Matching(b, a).Keys|;
  }

  /** A pairing marks as many positions of one string as of the other. */
  lemma {:induction false} SameSize(a: string, b: string, p: map<nat, nat>)
    requires IsPairing(a, b, p)
    ensures |p.Values| == |p| == |p.Keys|
    decreases |p|
  {
    if p.Keys == {} {
      assert p.Values == {};
    } else {
      var i :| i in p.Keys;
      var q := p - {i};
      assert q.Keys == p.Keys - {i};
      assert forall k :: k in q ==> q[k] == p[k];
      assert p[i] !in q.Values;
      assert p.Values == q.Values + {p[i]};
      SameSize(a, b, q);
    }
  }

  // -------------------------------------------------------------------------
  // Transpositions
  // -------------------------------------------------------------------------

  /** The characters of s[..n] at the picked positions, in order. */
  function Selected(s: string, n: nat, picked: set<nat>): string
    requires n <= |s|
  {
    if n == 0 then []
    else Selected(s, n - 1, picked) + if n - 1 in picked then [s[n - 1]] else []
  }

  lemma {:induction false} SelectedSize(s: string, n: nat, picked: set<nat>)
    requires n <= |s|
    ensures |Selected(s, n, picked)| == |set x | x in picked && x < n|
  {
    var below := set x | x in picked && x < n;
    if n == 0 {
      assert below == {};
    } else {
      SelectedSize(s, n - 1, picked);
      var less := set x | x in picked && x < n - 1;
      assert below == less + if n - 1 in picked then {n - 1} else {};
    }
  }

  lemma {:induction false} SelectedGrows(s: string, m: nat, n: nat, picked: set<nat>)
    requires m <= n <= |s|
    ensures |Selected(s, m, picked)| <= |Selected(s, n, picked)|
    decreases n
  {
    if m < n { SelectedGrows(s, m, n - 1, picked); }
  }

  /** Positions at which two strings of equal length differ. */
  function Mismatches(x: string, y: string): nat
    requires |x| == |y|
  {
    if x == [] then 0
    else
      var l := |x| - 1;
      Mismatches(x[..l], y[..l]) + if x[l] == y[l] then 0 else 1
  }

  lemma {:induction false} MismatchesBound(x: string, y: string)
    requires |x| == |y|
    ensures Mismatches(x, y) <= |x|
    ensures Mismatches(x, y) == Mismatches(y, x)
    ensures Mismatches(x, y) == 0 <==> x == y
  {
    if x != [] {
      var l := |x| - 1;
      MismatchesBound(x[..l], y[..l]);
      assert x == x[..l] + [x[l]] && y == y[..l] + [y[l]];
    }
  }

  ghost function MatchedLeft(a: string, b: string): string
  {
    Selected(a, |a|, Matching(a, b).Keys)
  }

  ghost function MatchedRight(a: string, b: string): string
  {
    Selected(b, |b|, Matching(a, b).Values)
  }

  /** Both match arrays hold as many marks as there are matches. */
  lemma MatchedSize(a: string, b: string)
    ensures |MatchedLeft(a, b)| == |MatchedRight(a, b)| == |Matching(a, b)|
    ensures |Matching(a, b)| <= |a| && |Matching(a, b)| <= |b|
  {
    var p := Matching(a, b);
    MatchingStable(a, b);
    SameSize(a, b, p);
    SelectedSize(a, |a|, p.Keys);
    SelectedSize(b, |b|, p.Values);
    assert (set x | x in p.Keys && x < |a|) == p.Keys;
    assert (set x | x in p.Values && x < |b|) == p.Values;
    SelectedAtMost(a, |a|, p.Keys);
    SelectedAtMost(b, |b|, p.Values);
  }

  lemma {:induction false} SelectedAtMost(s: string, n: nat, picked: set<nat>)
    requires n <= |s|
    ensures |Selected(s, n, picked)| <= n
    ensures |Selected(s, n, picked)| == n ==> Selected(s, n, picked) == s[..n]
  {
    if n > 0 {
      SelectedAtMost(s, n - 1, picked);
      assert s[..n] == s[..n - 1] + [s[n - 1]];
    }
  }

  ghost function Transpositions(a: string, b: string): nat
  {
    MatchedSize(a, b);
    Mismatches(MatchedLeft(a, b), MatchedRight(a, b))
  }

  // -------------------------------------------------------------------------
  // The score
  // -------------------------------------------------------------------------

  function Formula(m: nat, t: nat, l1: nat, l2: nat): real
    requires m > 0 && l1 > 0 && l2 > 0
  {
    (m as real / l1 as real + m as real / l2 as real + (m as real - t as real / 2.0) / m as real) / 3.0
  }

  /** The algorithm without its equal-string shortcut. */
  ghost function Full(a: string, b: string): real
  {
    var m := |Matching(a, b)|;
    if a == [] || b == [] || m == 0 then 0.0
    else Formula(m, Transpositions(a, b), |a|, |b|)
  }

  ghost function Similarity(a: string, b: string): real
  {
    if a == b then 1.0 else Full(a, b)
  }

  lemma FormulaRange(m: nat, t: nat, l1: nat, l2: nat)
    requires 0 < m <= l1 && m <= l2 && t <= m
    ensures 0.0 < Formula(m, t, l1, l2) <= 1.0
    ensures Formula(m, t, l1, l2) == 1.0 <==> m == l1 == l2 && t == 0
    ensures Formula(m, t, l1, l2) == Formula(m, t, l2, l1)
  {
    Basics.Ratio(m as real, l1 as real);
    Basics.Ratio(m as real, l2 as real);
    Basics.Ratio(m as real - t as real / 2.0, m as real);
  }

  lemma TranspositionsBound(a: string, b: string)
    ensures Transpositions(a, b) <= |Matching(a, b)|
  {
    MatchedSize(a, b);
    MismatchesBound(MatchedLeft(a, b), MatchedRight(a, b));
  }

  lemma FullRange(a: string, b: string)
    ensures 0.0 <= Full(a, b) <= 1.0
    ensures Full(a, b) == 0.0 <==> |Matching(a, b)| == 0
  {
    MatchedSize(a, b);
    TranspositionsBound(a, b);
    var m := |Matching(a, b)|;
    if a != [] && b != [] && m > 0 {
      FormulaRange(m, Transpositions(a, b), |a|, |b|);
    }
  }

  /** Every position kept and nothing out of order means equal strings. */
  lemma FullOneOnlyIfEqual(a: string, b: string)
    requires Full(a, b) == 1.0
    ensures a == b
  {
    MatchedSize(a, b);
    TranspositionsBound(a, b);
    FormulaRange(|Matching(a, b)|, Transpositions(a, b), |a|, |b|);
    MismatchesBound(MatchedLeft(a, b), MatchedRight(a, b));
    SelectedAtMost(a, |a|, Matching(a, b).Keys);
    SelectedAtMost(b, |b|, Matching(a, b).Values);
    assert a[..|a|] == a && b[..|b|] == b;
  }

  /** The pairing of every position with itself. */
  ghost function Diagonal(n: nat): (p: map<nat, nat>)
    ensures forall i: nat :: i in p <==> i < n
    ensures forall i :: i in p ==> p[i] == i
  {
    if n == 0 then map[] else Diagonal(n - 1)[n - 1 := n - 1]
  }

  lemma MatchingSelf(a: string)
    ensures Matching(a, a) == Diagonal(|a|)
  {
    var p := Diagonal(|a|);
    forall i: nat, j: nat | i < |a| && Compatible(a, a, i, j) ensures Settled(p, i, j) {
      if j < i { assert j in p && p[j] == j; }
    }
    MatchingStable(a, a);
    StableUnique(a, a, Matching(a, a), p);
  }

  /** The shortcut for equal strings agrees with the full algorithm exactly
      on non-empty strings: on two empty strings the full algorithm scores 0. */
  lemma ShortcutAgrees(a: string)
    ensures Full(a, a) == Similarity(a, a) <==> a != []
  {
    if a != [] {
      var p := Matching(a, a);
      MatchingSelf(a);
      assert forall i :: i in p.Keys <==> 0 <= i < |a|;
      assert forall i :: i in p.Keys ==> p[i] == i && i in p.Values;
      assert p.Keys == p.Values;
      MatchedSize(a, a);
      SelectedAll(a, |a|, p.Keys);
      MismatchesBound(MatchedLeft(a, a), MatchedRight(a, a));
      FormulaRange(|p|, Transpositions(a, a), |a|, |a|);
    }
  }

  lemma {:induction false} SelectedAll(s: string, n: nat, picked: set<nat>)
    requires n <= |s| && forall i: nat :: i < n ==> i in picked
    ensures |Selected(s, n, picked)| == n
  {
    if n > 0 { SelectedAll(s, n - 1, picked); }
  }

  /** Jaro is in [0, 1] and symmetric, is 1 only for equal strings and 0 only
      when no compatible pair of positions exists. */
  lemma SimilarityProperties(a: string, b: string)
    ensures 0.0 <= Similarity(a, b) <= 1.0
    ensures Similarity(a, b) == 1.0 <==> a == b
    ensures Similarity(a, b) == 0.0 <==> a != b && forall i: nat, j: nat :: !Compatible(a, b, i, j)
    ensures Similarity(a, b) == Similarity(b, a)
  {
    FullRange(a, b);
    if Full(a, b) == 1.0 { FullOneOnlyIfEqual(a, b); }
    FullSymmetric(a, b);
    NoMatches(a, b);
  }

  lemma NoMatches(a: string, b: string)
    ensures |Matching(a, b)| == 0 <==> forall i: nat, j: nat :: !Compatible(a, b, i, j)
  {
    var p := Matching(a, b);
    MatchingStable(a, b);
    if |p| == 0 {
      assert p.Keys == {};
      forall i: nat, j: nat ensures !Compatible(a, b, i, j) {
        assert Compatible(a, b, i, j) ==> Settled(p, i, j);
      }
    } else {
      assert p.Keys != {};
      var i :| i in p;
      assert Compatible(a, b, i, p[i]);
    }
  }

  lemma MatchedSwap(a: string, b: string)
    ensures MatchedLeft(b, a) == MatchedRight(a, b) && MatchedRight(b, a) == MatchedLeft(a, b)
  {
    MatchingSwap(a, b);
    MatchingStable(a, b);
    InverseOf(a, b, Matching(a, b));
  }

  lemma FullSymmetric(a: string, b: string)
    ensures Full(a, b) == Full(b, a)
  {
    MatchingIsMaximum(a, b);
    MatchedSwap(a, b);
    MatchedSize(a, b);
    MismatchesBound(MatchedLeft(a, b), MatchedRight(a, b));
  }

  // -------------------------------------------------------------------------
  // Jaro-Winkler
  // -------------------------------------------------------------------------

  /** The length of the common prefix, up to `n`. */
  function CommonPrefix(a: string, b: string, n: nat): (k: nat)
    requires n <= |a| && n <= |b|
    ensures k <= n && a[..k] == b[..k] && (k < n ==> a[k] != b[k])
  {
    if n == 0 then 0
    else
      var k := CommonPrefix(a, b, n - 1);
      if k == n - 1 && a[k] == b[k] then
        assert a[..n] == a[..k] + [a[k]] && b[..n] == b[..k] + [b[k]];
        n
      else k
  }

  function PrefixCap(a: string, b: string): (n: nat)
    ensures n <= |a| && n <= |b| && n <= 4
  {
    var n := if |a| < 4 then |a| else 4;
    if |b| < n then |b| else n
  }

  ghost function Winkler(a: string, b: string): real
  {
    var j := Similarity(a, b);
    if j == 0.0 then 0.0
    else Boosted(j, CommonPrefix(a, b, PrefixCap(a, b)) as real * 0.1)
  }

  /** A share of what is missing to 1, on top. */
  function Boosted(j: real, p: real): real
  {
    j + p * (1.0 - j)
  }

  lemma CommonPrefixUnique(a: string, b: string, n: nat, k: nat)
    requires k <= n <= |a| && n <= |b|
    requires a[..k] == b[..k] && (k < n ==> a[k] != b[k])
    ensures CommonPrefix(a, b, n) == k
  {
  }

  lemma WinklerProperties(a: string, b: string)
    ensures Similarity(a, b) <= Winkler(a, b) <= 1.0
    ensures Winkler(a, b) == 1.0 <==> a == b
    ensures Winkler(a, b) == 0.0 <==> Similarity(a, b) == 0.0
    ensures Winkler(a, b) == Winkler(b, a)
  {
    SimilarityProperties(a, b);
    PrefixSymmetric(a, b);
    BoostedRange(Similarity(a, b), CommonPrefix(a, b, PrefixCap(a, b)) as real * 0.1);
  }

  lemma PrefixSymmetric(a: string, b: string)
    ensures CommonPrefix(a, b, PrefixCap(a, b)) == CommonPrefix(b, a, PrefixCap(b, a))
  {
    CommonPrefixUnique(b, a, PrefixCap(b, a), CommonPrefix(a, b, PrefixCap(a, b)));
  }

  lemma BoostedRange(j: real, p: real)
    requires 0.0 <= j <= 1.0 && 0.0 <= p <= 0.4
    ensures j <= Boosted(j, p) <= 1.0
    ensures Boosted(j, p) == 1.0 <==> j == 1.0
  {
  }

  // -------------------------------------------------------------------------
  // The loops
  // -------------------------------------------------------------------------

  /** The match arrays record the pairing `p`. */
  ghost predicate Marks(left: seq<bool>, right: seq<bool>, p: map<nat, nat>)
  {
    && (forall i :: 0 <= i < |left| ==> (left[i] <==> i in p.Keys))
    && (forall j :: 0 <= j < |right| ==> (right[j] <==> j in p.Values))
  }

  lemma MarkPair(left: seq<bool>, right: seq<bool>, p: map<nat, nat>, i: nat, j: nat)
    requires Marks(left, right, p) && i < |left| && j < |right| && i !in p
    ensures Marks(left[i := true], right[j := true], p[i := j])
    ensures |p[i := j]| == |p| + 1
  {
    var q := p[i := j];
    TakeColumn(p, i, j);
    assert forall k :: k in p ==> k in q && q[k] == p[k];
    assert i in q && q[i] == j;
    assert forall c :: c in p.Values ==> c in q.Values;
  }

  lemma FirstFreeIs(a: string, b: string, i: nat, taken: set<nat>, k: nat)
    requires k <= |b| && (k < |b| ==> Free(a, b, i, taken, k))
    requires forall l: nat :: l < k ==> !Free(a, b, i, taken, l)
    ensures FirstFree(a, b, i, taken, 0) == k
  {
  }

  /** The window search of one row: the first unmarked equal character. */
  method FindPartner(r1: string, r2: string, i: nat, matchWindow: nat, s2Matches: array<bool>, ghost p: map<nat, nat>)
    returns (j: nat)
    requires i < |r1| && s2Matches.Length == |r2| && matchWindow == Window(r1, r2)
    requires forall c :: 0 <= c < |r2| ==> (s2Matches[c] <==> c in p.Values)
    ensures j == FirstFree(r1, r2, i, p.Values, 0)
  {
    var start := i - matchWindow;
    if start < 0 { start := 0; }
    var end := i + matchWindow + 1;
    if end > |r2| { end := |r2|; }
    j := start;
    while j < end
      invariant start <= j && (start <= end ==> j <= end)
      invariant forall l: nat :: l < j && l < end ==> !Free(r1, r2, i, p.Values, l)
    {
      if !(s2Matches[j] || r1[i] != r2[j]) {
        FirstFreeIs(r1, r2, i, p.Values, j);
        return;
      }
      j := j + 1;
    }
    j := |r2|;
    FirstFreeIs(r1, r2, i, p.Values, j);
  }

  /** `p` is what the scan has paired before row `i`. */
  ghost predicate OnCourse(a: string, b: string, i: nat, p: map<nat, nat>)
  {
    && i <= |a| && (forall k :: k in p ==> k < i)
    && Greedy(a, b, i, p) == Matching(a, b)
  }

  lemma NextRow(a: string, b: string, i: nat, p: map<nat, nat>, j: nat)
    requires OnCourse(a, b, i, p) && i < |a| && j == FirstFree(a, b, i, p.Values, 0)
    ensures OnCourse(a, b, i + 1, if j < |b| then p[i := j] else p)
  {
  }

  /** Marks one pair in both arrays. */
  method MarkBoth(s1Matches: array<bool>, s2Matches: array<bool>, i: nat, j: nat, ghost p: map<nat, nat>)
    requires s1Matches != s2Matches && i < s1Matches.Length && j < s2Matches.Length
    requires Marks(s1Matches[..], s2Matches[..], p) && i !in p
    modifies s1Matches, s2Matches
    ensures Marks(s1Matches[..], s2Matches[..], p[i := j]) && |p[i := j]| == |p| + 1
  {
    ghost var left, right := s1Matches[..], s2Matches[..];
    MarkPair(left, right, p, i, j);
    s1Matches[i] := true;
    s2Matches[j] := true;
    assert s1Matches[..] == left[i := true] && s2Matches[..] == right[j := true];
  }

  /** The matching loop, filling both match arrays. */
  method FindMatches(r1: string, r2: string, matchWindow: nat, s1Matches: array<bool>, s2Matches: array<bool>)
    returns (matches: nat)
    requires s1Matches != s2Matches && s1Matches.Length == |r1| && s2Matches.Length == |r2|
    requires matchWindow == Window(r1, r2) && Marks(s1Matches[..], s2Matches[..], map[])
    modifies s1Matches, s2Matches
    ensures matches == |Matching(r1, r2)|
    ensures Marks(s1Matches[..], s2Matches[..], Matching(r1, r2))
  {
    matches := 0;
    ghost var p: map<nat, nat> := map[];
    for i := 0 to |r1|
      invariant matches == |p| && Marks(s1Matches[..], s2Matches[..], p)
      invariant OnCourse(r1, r2, i, p)
    {
      assert forall c :: 0 <= c < |r2| ==> (s2Matches[..][c] <==> c in p.Values);
      var j := FindPartner(r1, r2, i, matchWindow, s2Matches, p);
      NextRow(r1, r2, i, p, j);
      if j < |r2| {
        MarkBoth(s1Matches, s2Matches, i, j, p);
        matches := matches + 1;
        p := p[i := j];
      }
    }
  }

  /** The pointers have seen as many marks as each other, and `t` of them
      at differing characters. */
  ghost predicate Scanned(r1: string, r2: string, i: nat, k: nat, t: nat)
  {
    && i <= |r1| && k <= |r2|
    && var x, y := Selected(r1, i, Matching(r1, r2).Keys), Selected(r2, k, Matching(r1, r2).Values);
       |x| == |y| && t == Mismatches(x, y)
  }

  lemma SkipRow(r1: string, r2: string, i: nat, k: nat, t: nat)
    requires Scanned(r1, r2, i, k, t) && i < |r1| && i !in Matching(r1, r2).Keys
    ensures Scanned(r1, r2, i + 1, k, t)
  {
    assert Selected(r1, i + 1, Matching(r1, r2).Keys) == Selected(r1, i, Matching(r1, r2).Keys);
  }

  lemma SkipColumn(r1: string, r2: string, i: nat, k: nat, t: nat)
    requires Scanned(r1, r2, i, k, t) && k < |r2| && k !in Matching(r1, r2).Values
    ensures Scanned(r1, r2, i, k + 1, t)
  {
    assert Selected(r2, k + 1, Matching(r1, r2).Values) == Selected(r2, k, Matching(r1, r2).Values);
  }

  lemma ComparePair(r1: string, r2: string, i: nat, k: nat, t: nat)
    requires Scanned(r1, r2, i, k, t)
    requires i < |r1| && i in Matching(r1, r2).Keys && k < |r2| && k in Matching(r1, r2).Values
    ensures Scanned(r1, r2, i + 1, k + 1, t + if r1[i] == r2[k] then 0 else 1)
  {
  }

  lemma ScanEnds(r1: string, r2: string, k: nat, t: nat)
    requires Scanned(r1, r2, |r1|, k, t)
    ensures t == Transpositions(r1, r2)
  {
    MatchedSize(r1, r2);
    SelectedSame(r2, k, |r2|, Matching(r1, r2).Values);
  }

  /** The next marked position is inside the array while marks remain. */
  lemma MarkAhead(r1: string, r2: string, i: nat, k: nat, t: nat)
    requires Scanned(r1, r2, i, k, t) && i < |r1| && i in Matching(r1, r2).Keys
    ensures k < |r2|
  {
    MatchedSize(r1, r2);
    SelectedGrows(r1, i + 1, |r1|, Matching(r1, r2).Keys);
  }

  /** The two-pointer scan over the marked positions. */
  method CountTranspositions(r1: string, r2: string, s1Matches: array<bool>, s2Matches: array<bool>)
    returns (transpositions: nat)
    requires s1Matches.Length == |r1| && s2Matches.Length == |r2|
    requires Marks(s1Matches[..], s2Matches[..], Matching(r1, r2))
    ensures transpositions == Transpositions(r1, r2)
  {
    ghost var rows, cols := Matching(r1, r2).Keys, Matching(r1, r2).Values;
    assert forall i :: 0 <= i < |r1| ==> (s1Matches[..][i] <==> i in rows);
    assert forall j :: 0 <= j < |r2| ==> (s2Matches[..][j] <==> j in cols);
    transpositions := 0;
    var k := 0;
    for i := 0 to |r1|
      invariant Scanned(r1, r2, i, k, transpositions)
    {
      if !s1Matches[i] {
        SkipRow(r1, r2, i, k, transpositions);
      } else {
        MarkAhead(r1, r2, i, k, transpositions);
        while !s2Matches[k]
          invariant k < |r2| && Scanned(r1, r2, i, k, transpositions)
          decreases |r2| - k
        {
          SkipColumn(r1, r2, i, k, transpositions);
          MarkAhead(r1, r2, i, k + 1, transpositions);
          k := k + 1;
        }
        ComparePair(r1, r2, i, k, transpositions);
        if r1[i] != r2[k] {
          transpositions := transpositions + 1;
        }
        k := k + 1;
      }
    }
    ScanEnds(r1, r2, k, transpositions);
  }

  lemma {:induction false} SelectedSame(s: string, m: nat, n: nat, picked: set<nat>)
    requires m <= n <= |s| && |Selected(s, m, picked)| == |Selected(s, n, picked)|
    ensures Selected(s, m, picked) == Selected(s, n, picked)
    decreases n
  {
    if m < n {
      SelectedGrows(s, m, n - 1, picked);
      SelectedSame(s, m, n - 1, picked);
    }
  }

  method JaroSimilarity(s1: string, s2: string) returns (r: real)
    ensures r == Similarity(s1, s2)
  {
    if s1 == s2 { return 1.0; }
    var l1, l2 := |s1|, |s2|;
    if l1 == 0 || l2 == 0 { return 0.0; }
    var matchWindow := 0;
    if l1 > l2 { matchWindow := l1 / 2 - 1; } else { matchWindow := l2 / 2 - 1; }
    if matchWindow < 0 { matchWindow := 0; }
    var s1Matches := new bool[l1](_ => false);
    var s2Matches := new bool[l2](_ => false);
    var matches := FindMatches(s1, s2, matchWindow, s1Matches, s2Matches);
    if matches == 0 { return 0.0; }
    var transpositions := CountTranspositions(s1, s2, s1Matches, s2Matches);
    var m := matches as real;
    r := (m / l1 as real + m / l2 as real + (m - transpositions as real / 2.0) / m) / 3.0;
  }

  /** The prefix loop. */
  method PrefixLength(s1: string, s2: string) returns (prefixLen: nat)
    ensures prefixLen == CommonPrefix(s1, s2, PrefixCap(s1, s2))
  {
    prefixLen := 0;
    var maxPrefix := 4;
    if |s1| < maxPrefix { maxPrefix := |s1|; }
    if |s2| < maxPrefix { maxPrefix := |s2|; }
    for i := 0 to maxPrefix
      invariant prefixLen == i && s1[..i] == s2[..i]
    {
      if s1[i] != s2[i] { break; }
      assert s1[..i + 1] == s1[..i] + [s1[i]] && s2[..i + 1] == s2[..i] + [s2[i]];
      prefixLen := prefixLen + 1;
    }
    CommonPrefixUnique(s1, s2, maxPrefix, prefixLen);
  }

  method JaroWinkler(s1: string, s2: string) returns (r: real)
    ensures r == Winkler(s1, s2)
  {
    var j := JaroSimilarity(s1, s2);
    if j == 0.0 { return 0.0; }
    var prefixLen := PrefixLength(s1, s2);
    r := j + prefixLen as real * 0.1 * (1.0 - j);
  }
}
